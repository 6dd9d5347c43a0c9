/**
 * What History keeps in memory, as a value, and the invariant that ties it to the log and to the
 * blobs on disk.
 */
module HistoryState {
  import opened Domain
  import opened Records
  import opened EventLog
  import opened LogStore
  import opened StoreObject
  import opened SearchIndex

  datatype Memory = Memory(
    items: map<ItemId, Item>,
    tabs: set<string>,
    ord: map<ItemId, int>,
    byHash: map<ContentHash, ItemId>,
    pending: set<BlobId>,
    previewsLoaded: bool)

  /** What locking drops from an item. */
  function ScrubPreview(it: Item): Item {
    it.(title := Some(None), preview := "", maskSpans := [])
  }

  function Shown(it: Item, previewsLoaded: bool): Item {
    if previewsLoaded then it else ScrubPreview(it)
  }

  function ShownAll(items: map<ItemId, Item>, previewsLoaded: bool): map<ItemId, Item> {
    map id | id in items :: Shown(items[id], previewsLoaded)
  }

  // ---- the invariant -------------------------------------------------------------------------

  /** Memory is the replay of the log, scrubbed while previews are evicted. */
  ghost predicate Agrees(m: Memory, events: seq<StoreEvent>) {
    var v := Replay(events);
    m.items == ShownAll(v.items, m.previewsLoaded) && m.tabs == v.tabs && m.ord == v.ord
  }

  /** The duplicate index points at each item by its hash, and at nothing else. */
  ghost predicate HashesIndexed(items: map<ItemId, Item>, byHash: map<ContentHash, ItemId>) {
    && (forall id :: id in items ==> items[id].contentHash in byHash && byHash[items[id].contentHash] == id)
    && (forall h :: h in byHash ==> byHash[h] in items && items[byHash[h]].contentHash == h)
  }

  /** Every referenced blob is on disk; every other one is known to be waiting or was orphaned. */
  ghost predicate BlobsAccounted(m: Memory, events: seq<StoreEvent>, blobs: set<BlobId>, orphans: set<BlobId>) {
    && RefsOf(m.items) <= blobs
    && blobs <= RefsOf(m.items) + m.pending + orphans
    && m.pending <= Replay(events).freed
  }

  ghost predicate Sound(m: Memory, events: seq<StoreEvent>, blobs: set<BlobId>, orphans: set<BlobId>) {
    && AllReadable(events)
    && Agrees(m, events)
    && HashesIndexed(m.items, m.byHash)
    && BlobsAccounted(m, events, blobs, orphans)
  }

  /** A log History can be attached to: readable, one item per content, no dangling reference. */
  ghost predicate Healthy(d: Disk) {
    && AllReadable(d.events)
    && DistinctHashes(Replay(d.events).items)
    && NoDangling(d)
  }

  ghost predicate DistinctHashes(items: map<ItemId, Item>) {
    forall a, b :: a in items && b in items && items[a].contentHash == items[b].contentHash ==> a == b
  }

  lemma ShownKeepsRefs(items: map<ItemId, Item>, previewsLoaded: bool)
    ensures RefsOf(ShownAll(items, previewsLoaded)) == RefsOf(items)
  {
    forall id | id in items
      ensures BlobIds(Shown(items[id], previewsLoaded)) == BlobIds(items[id])
    {
    }
    var shown := ShownAll(items, previewsLoaded);
    assert forall id :: id in shown <==> id in items;
    assert RefsOf(shown) <= RefsOf(items);
    assert RefsOf(items) <= RefsOf(shown);
  }

  lemma SoundAgrees(m: Memory, events: seq<StoreEvent>, blobs: set<BlobId>, orphans: set<BlobId>)
    requires Sound(m, events, blobs, orphans)
    ensures Agrees(m, events)
  {
  }

  lemma SoundIsHealthy(m: Memory, events: seq<StoreEvent>, blobs: set<BlobId>, orphans: set<BlobId>)
    requires Sound(m, events, blobs, orphans)
    ensures Healthy(Disk(events, blobs))
  {
    ShownKeepsRefs(Replay(events).items, m.previewsLoaded);
    forall a, b | a in Replay(events).items && b in Replay(events).items
                  && Replay(events).items[a].contentHash == Replay(events).items[b].contentHash
      ensures a == b
    {
      assert a in m.items && b in m.items;
    }
  }

  // ---- what each kind of record does to memory ----------------------------------------------

  function Remembered(m: Memory, it: Item): Memory {
    m.(items := m.items[it.id := Shown(it, m.previewsLoaded)])
  }

  function AfterUpdate(m: Memory, id: ItemId, patch: ItemPatch): Memory
    requires id in m.items
  {
    Remembered(m, Patched(m.items[id], patch))
  }

  function AfterAdd(m: Memory, it: Item, seqNo: int): Memory {
    Remembered(m, it).(ord := m.ord[it.id := seqNo], byHash := m.byHash[it.contentHash := it.id])
  }

  function AfterDelete(m: Memory, id: ItemId): Memory
    requires id in m.items
  {
    var it := m.items[id];
    m.(items := m.items - {id},
       ord := m.ord - {id},
       byHash := if it.contentHash in m.byHash && m.byHash[it.contentHash] == id
                 then m.byHash - {it.contentHash} else m.byHash,
       pending := m.pending + BlobIds(it))
  }

  function AfterTabCreated(m: Memory, tag: string): Memory {
    m.(tabs := m.tabs + {tag})
  }

  function AfterTabDeleted(m: Memory, tag: string): Memory {
    m.(tabs := m.tabs - {tag}, items := ShownAll(UntagAll(m.items, tag), m.previewsLoaded))
  }

  function AfterPreviewEviction(m: Memory): Memory {
    m.(items := ShownAll(m.items, false), previewsLoaded := false)
  }

  function IndexByHash(items: map<ItemId, Item>): map<ContentHash, ItemId>
    requires DistinctHashes(items)
  {
    map id | id in items :: items[id].contentHash := id
  }

  /** The snapshot a load publishes. */
  function Published(v: View, previewsLoaded: bool, pending: set<BlobId>): Memory
    requires DistinctHashes(v.items)
  {
    Memory(ShownAll(v.items, previewsLoaded), v.tabs, v.ord, IndexByHash(v.items), pending + v.freed, previewsLoaded)
  }

  // ---- each keeps the invariant --------------------------------------------------------------

  lemma AllReadableAppend(events: seq<StoreEvent>, e: StoreEvent)
    requires AllReadable(events) && Readable(e.body)
    ensures AllReadable(events + [e])
  {
  }

  lemma ItemsAreModern(m: Memory, events: seq<StoreEvent>, id: ItemId)
    requires Agrees(m, events) && id in m.items
    ensures m.items[id].id == id && m.items[id].tags.Some? && m.items[id].title.Some?
    ensures id in Replay(events).items && Replay(events).items[id].id == id
    ensures Replay(events).items[id].tags.Some? && Replay(events).items[id].title.Some?
    ensures m.items[id] == Shown(Replay(events).items[id], m.previewsLoaded)
    ensures id in m.ord
  {
    ReplayCoherent(events);
  }

  lemma RefsOfPut(items: map<ItemId, Item>, id: ItemId, it: Item)
    requires id in items && BlobIds(it) == BlobIds(items[id])
    ensures RefsOf(items[id := it]) == RefsOf(items)
  {
    var put := items[id := it];
    forall b | b in RefsOf(put)
      ensures b in RefsOf(items)
    {
      var x :| x in put && b in BlobIds(put[x]);
      assert x in items && b in BlobIds(items[x]);
    }
    forall b | b in RefsOf(items)
      ensures b in RefsOf(put)
    {
      var x :| x in items && b in BlobIds(items[x]);
      assert x in put && b in BlobIds(put[x]);
    }
  }

  lemma UpdateAgrees(m: Memory, events: seq<StoreEvent>, e: StoreEvent)
    requires Agrees(m, events) && e.body.UpdateItem? && e.body.id in m.items
    ensures Agrees(AfterUpdate(m, e.body.id, e.body.patch), events + [e])
  {
    ReplayAppend(events, e);
    var id, patch := e.body.id, e.body.patch;
    ItemsAreModern(m, events, id);
    var full := Replay(events).items[id];
    assert WithDefaults(Patched(full, patch)) == Patched(full, patch);
    assert Shown(Patched(m.items[id], patch), m.previewsLoaded) == Shown(Patched(full, patch), m.previewsLoaded);
  }

  lemma UpdateSound(m: Memory, events: seq<StoreEvent>, blobs: set<BlobId>, orphans: set<BlobId>, e: StoreEvent)
    requires Sound(m, events, blobs, orphans) && e.body.UpdateItem? && e.body.id in m.items
    ensures Sound(AfterUpdate(m, e.body.id, e.body.patch), events + [e], blobs, orphans)
  {
    UpdateAgrees(m, events, e);
    ItemsAreModern(m, events, e.body.id);
    ReplayAppend(events, e);
    AllReadableAppend(events, e);
    var id := e.body.id;
    var next := Shown(Patched(m.items[id], e.body.patch), m.previewsLoaded);
    assert BlobIds(next) == BlobIds(m.items[id]);
    RefsOfPut(m.items, id, next);
  }

  lemma RefsOfAdd(items: map<ItemId, Item>, it: Item)
    requires it.id !in items
    ensures RefsOf(items[it.id := it]) == RefsOf(items) + BlobIds(it)
  {
    var put := items[it.id := it];
    forall b | b in RefsOf(put)
      ensures b in RefsOf(items) + BlobIds(it)
    {
      var x :| x in put && b in BlobIds(put[x]);
      assert x != it.id ==> x in items && b in BlobIds(items[x]);
    }
    forall b | b in RefsOf(items) + BlobIds(it)
      ensures b in RefsOf(put)
    {
      if b in BlobIds(it) {
        assert it.id in put && b in BlobIds(put[it.id]);
      } else {
        var x :| x in items && b in BlobIds(items[x]);
        assert x in put && b in BlobIds(put[x]);
      }
    }
  }

  lemma AddAgrees(m: Memory, events: seq<StoreEvent>, e: StoreEvent)
    requires Agrees(m, events) && e.body.AddItem?
    requires e.body.item.title.Some? && e.body.item.tags.Some?
    ensures Agrees(AfterAdd(m, e.body.item, e.seqNo), events + [e])
  {
    ReplayAppend(events, e);
    assert WithDefaults(e.body.item) == e.body.item;
  }

  lemma AddSound(m: Memory, events: seq<StoreEvent>, blobs: set<BlobId>, orphans: set<BlobId>, e: StoreEvent)
    requires Sound(m, events, blobs, orphans) && e.body.AddItem?
    requires var it := e.body.item;
             it.id !in m.items && it.contentHash !in m.byHash && it.title.Some? && it.tags.Some? && BlobIds(it) <= blobs
    ensures Sound(AfterAdd(m, e.body.item, e.seqNo), events + [e], blobs, orphans)
  {
    AddAgrees(m, events, e);
    AllReadableAppend(events, e);
    hide Agrees, AllReadable;
    AddIndexes(m, e.body.item, e.seqNo);
    AddBlobs(m, events, blobs, orphans, e);
  }

  lemma AddIndexes(m: Memory, it: Item, seqNo: int)
    requires HashesIndexed(m.items, m.byHash) && it.id !in m.items && it.contentHash !in m.byHash
    ensures HashesIndexed(AfterAdd(m, it, seqNo).items, AfterAdd(m, it, seqNo).byHash)
  {
  }

  lemma AddBlobs(m: Memory, events: seq<StoreEvent>, blobs: set<BlobId>, orphans: set<BlobId>, e: StoreEvent)
    requires BlobsAccounted(m, events, blobs, orphans) && e.body.AddItem?
    requires e.body.item.id !in m.items && BlobIds(e.body.item) <= blobs
    ensures BlobsAccounted(AfterAdd(m, e.body.item, e.seqNo), events + [e], blobs, orphans)
  {
    ReplayAppend(events, e);
    hide Replay, RefsOf;
    var shown := Shown(e.body.item, m.previewsLoaded);
    assert BlobIds(shown) == BlobIds(e.body.item);
    RefsOfAdd(m.items, shown);
  }

  lemma RefsOfDrop(items: map<ItemId, Item>, id: ItemId)
    requires id in items
    ensures RefsOf(items) == RefsOf(items - {id}) + BlobIds(items[id])
  {
    var rest := items - {id};
    forall b | b in RefsOf(items)
      ensures b in RefsOf(rest) + BlobIds(items[id])
    {
      var x :| x in items && b in BlobIds(items[x]);
      assert x != id ==> x in rest && b in BlobIds(rest[x]);
    }
    forall b | b in RefsOf(rest) + BlobIds(items[id])
      ensures b in RefsOf(items)
    {
      if b in RefsOf(rest) {
        var x :| x in rest && b in BlobIds(rest[x]);
        assert x in items && b in BlobIds(items[x]);
      }
    }
  }

  lemma DeleteAgrees(m: Memory, events: seq<StoreEvent>, e: StoreEvent)
    requires Agrees(m, events) && e.body.DeleteItem? && e.body.id in m.items
    ensures Agrees(AfterDelete(m, e.body.id), events + [e])
    ensures Replay(events + [e]).freed == Replay(events).freed + BlobIds(m.items[e.body.id])
  {
    ReplayAppend(events, e);
    ItemsAreModern(m, events, e.body.id);
    assert BlobIds(m.items[e.body.id]) == BlobIds(Replay(events).items[e.body.id]);
  }

  lemma DeleteSound(m: Memory, events: seq<StoreEvent>, blobs: set<BlobId>, orphans: set<BlobId>, e: StoreEvent)
    requires Sound(m, events, blobs, orphans) && e.body.DeleteItem? && e.body.id in m.items
    ensures Sound(AfterDelete(m, e.body.id), events + [e], blobs, orphans)
  {
    DeleteAgrees(m, events, e);
    AllReadableAppend(events, e);
    hide Agrees, AllReadable, Replay;
    DeleteIndexes(m, e.body.id);
    RefsOfDrop(m.items, e.body.id);
    hide RefsOf, HashesIndexed;
  }

  lemma DeleteIndexes(m: Memory, id: ItemId)
    requires HashesIndexed(m.items, m.byHash) && id in m.items
    ensures HashesIndexed(AfterDelete(m, id).items, AfterDelete(m, id).byHash)
  {
  }

  lemma TabCreatedSound(m: Memory, events: seq<StoreEvent>, blobs: set<BlobId>, orphans: set<BlobId>, e: StoreEvent)
    requires Sound(m, events, blobs, orphans) && e.body.CreateTab? && e.body.tag != ""
    ensures Sound(AfterTabCreated(m, e.body.tag), events + [e], blobs, orphans)
  {
    ReplayAppend(events, e);
    AllReadableAppend(events, e);
  }

  lemma TabDeletedAgrees(m: Memory, events: seq<StoreEvent>, e: StoreEvent)
    requires Agrees(m, events) && e.body.DeleteTab?
    ensures Agrees(AfterTabDeleted(m, e.body.tag), events + [e])
  {
    ReplayAppend(events, e);
    hide Replay;
    UntagShown(Replay(events).items, e.body.tag, m.previewsLoaded);
  }

  /** Untagging what is shown is showing what is untagged. */
  lemma UntagShown(items: map<ItemId, Item>, tag: string, show: bool)
    ensures ShownAll(UntagAll(ShownAll(items, show), tag), show) == ShownAll(UntagAll(items, tag), show)
  {
    hide Without;
    forall id | id in items
      ensures Shown(Untag(Shown(items[id], show), tag), show) == Shown(Untag(items[id], tag), show)
    {
      UntagShownOne(items[id], tag, show);
    }
    hide Shown, Untag;
  }

  lemma UntagShownOne(it: Item, tag: string, show: bool)
    ensures Shown(Untag(Shown(it, show), tag), show) == Shown(Untag(it, tag), show)
  {
    hide Without;
  }

  lemma UntagKeepsRefs(items: map<ItemId, Item>, tag: string)
    ensures RefsOf(UntagAll(items, tag)) == RefsOf(items)
  {
    forall id | id in items
      ensures BlobIds(Untag(items[id], tag)) == BlobIds(items[id])
    {
    }
    var untagged := UntagAll(items, tag);
    assert forall id :: id in untagged <==> id in items;
    assert RefsOf(untagged) <= RefsOf(items);
    assert RefsOf(items) <= RefsOf(untagged);
  }

  lemma TabDeletedSound(m: Memory, events: seq<StoreEvent>, blobs: set<BlobId>, orphans: set<BlobId>, e: StoreEvent)
    requires Sound(m, events, blobs, orphans) && e.body.DeleteTab? && e.body.tag != ""
    ensures Sound(AfterTabDeleted(m, e.body.tag), events + [e], blobs, orphans)
  {
    TabDeletedAgrees(m, events, e);
    AllReadableAppend(events, e);
    ReplayAppend(events, e);
    hide Agrees, AllReadable, Replay, RefsOf, Untag;
    UntagKeepsRefs(m.items, e.body.tag);
    ShownKeepsRefs(UntagAll(m.items, e.body.tag), m.previewsLoaded);
    TabDeletedHashes(m, e.body.tag);
  }

  /** The duplicate index only looks at the content hashes. */
  lemma SameHashes(items: map<ItemId, Item>, changed: map<ItemId, Item>, byHash: map<ContentHash, ItemId>)
    requires HashesIndexed(items, byHash) && changed.Keys == items.Keys
    requires forall id :: id in items ==> changed[id].contentHash == items[id].contentHash
    ensures HashesIndexed(changed, byHash)
  {
  }

  lemma TabDeletedHashes(m: Memory, tag: string)
    requires HashesIndexed(m.items, m.byHash)
    ensures HashesIndexed(AfterTabDeleted(m, tag).items, m.byHash)
  {
    hide HashesIndexed, Without;
    var after := AfterTabDeleted(m, tag).items;
    forall id | id in m.items
      ensures after[id].contentHash == m.items[id].contentHash
    {
    }
    SameHashes(m.items, after, m.byHash);
  }

  lemma PreviewEvictionSound(m: Memory, events: seq<StoreEvent>, blobs: set<BlobId>, orphans: set<BlobId>)
    requires Sound(m, events, blobs, orphans)
    ensures Sound(AfterPreviewEviction(m), events, blobs, orphans)
  {
    hide Replay, RefsOf, AllReadable;
    ShownKeepsRefs(m.items, false);
    ShownTwice(Replay(events).items, m.previewsLoaded);
    SameHashes(m.items, ShownAll(m.items, false), m.byHash);
  }

  lemma ShownTwice(items: map<ItemId, Item>, show: bool)
    ensures ShownAll(ShownAll(items, show), false) == ShownAll(items, false)
  {
    forall id | id in items
      ensures Shown(Shown(items[id], show), false) == Shown(items[id], false)
    {
    }
  }

  /** Publishing a replay of a healthy disk establishes the invariant from nothing. */
  lemma PublishedSound(d: Disk, previewsLoaded: bool, pending: set<BlobId>, orphans: set<BlobId>)
    requires Healthy(d) && pending <= Replay(d.events).freed
    requires d.blobs <= RefsOf(Replay(d.events).items) + pending + Replay(d.events).freed + orphans
    ensures Sound(Published(Replay(d.events), previewsLoaded, pending), d.events, d.blobs, orphans)
  {
    var v := Replay(d.events);
    ShownKeepsRefs(v.items, previewsLoaded);
    var m := Published(v, previewsLoaded, pending);
    forall id | id in m.items
      ensures m.items[id].contentHash in m.byHash && m.byHash[m.items[id].contentHash] == id
    {
      assert m.items[id].contentHash == v.items[id].contentHash;
    }
  }

  // ---- the search index ----------------------------------------------------------------------

  /** The entry `reindex` files for an item: its title if it has one, else its preview. */
  function EntryOf(it: Item, ord: int): SearchEntry {
    SearchEntry(it.id, if TitleOf(it).Some? then TitleOf(it).value else it.preview,
                it.pinned, |TagsOf(it)| > 0, it.updatedAt, ord)
  }

  /** The index holds current entries only, and none at all while previews are evicted. */
  ghost predicate IndexAgrees(entries: seq<SearchEntry>, m: Memory) {
    forall e :: e in entries ==>
      m.previewsLoaded && e.id in m.items && e.id in m.ord && e == EntryOf(m.items[e.id], m.ord[e.id])
  }

  /** `reindex` was called for this item: filed anew while previews show, otherwise left alone. */
  ghost predicate Refiled(before: seq<SearchEntry>, after: seq<SearchEntry>, m: Memory, it: Item, capacity: nat)
    requires it.id in m.ord
  {
    if m.previewsLoaded then FairlyTrimmed(Put(before, EntryOf(it, m.ord[it.id])), after, capacity) else after == before
  }

  /** The index has room for every item, so nothing it is given is dropped. */
  ghost predicate HasRoom(m: Memory, capacity: nat) {
    m.previewsLoaded && |m.items| <= capacity
  }

  /** The current entries of these items are in the index. */
  ghost predicate FiledAll(entries: seq<SearchEntry>, m: Memory, ids: set<ItemId>) {
    forall id :: id in ids ==> id in m.items && id in m.ord && EntryOf(m.items[id], m.ord[id]) in entries
  }

  lemma {:induction false} DistinctSize(entries: seq<SearchEntry>)
    requires DistinctEntries(entries)
    ensures |IdSet(entries)| == |entries|
  {
    if entries != [] {
      var init, last := entries[..|entries| - 1], entries[|entries| - 1];
      DistinctSize(init);
      IdSetNext(entries, |init|);
      assert entries[..|init| + 1] == entries;
      assert last.id !in IdSet(init);
    }
  }

  /** With room, filing an entry replaces the item's old one and touches no other. */
  lemma FiledInRoom(before: seq<SearchEntry>, after: seq<SearchEntry>, m: Memory, it: Item, capacity: nat)
    requires DistinctEntries(before) && IndexAgrees(before, m) && HasRoom(m, capacity)
    requires it.id in m.ord && it.id in m.items && Refiled(before, after, m, it, capacity)
    ensures forall x :: x in after <==> x == EntryOf(it, m.ord[it.id]) || (x in before && x.id != it.id)
  {
    var all := Put(before, EntryOf(it, m.ord[it.id]));
    PutMembers(before, EntryOf(it, m.ord[it.id]));
    DistinctSize(all);
    forall id | id in IdSet(all)
      ensures id in m.items
    {
      var i :| 0 <= i < |all| && all[i].id == id;
      assert all[i] in all;
    }
    SubsetSize(IdSet(all), m.items.Keys);
    assert |m.items.Keys| == |m.items|;
  }

  lemma {:induction false} SubsetSize<T>(a: set<T>, b: set<T>)
    requires a <= b
    ensures |a| <= |b|
  {
    if a != {} {
      var x :| x in a;
      SubsetSize(a - {x}, b - {x});
    }
  }
}
