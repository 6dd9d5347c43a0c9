/**
 * What a log means. `Replay` is the fold History performs when it loads; `Collapse` is the fold
 * compaction performs, which keeps records as written and remembers their order.
 */
module EventLog {
  import opened Domain
  import opened Sorting
  import opened Records

  datatype View = View(
    items: map<ItemId, Item>,
    tabs: set<string>,
    ord: map<ItemId, int>,
    freed: set<BlobId>)

  const EMPTY_VIEW := View(map[], {}, map[], {})

  /** Old records predate tags and titles. */
  function WithDefaults(it: Item): Item {
    it.(tags := Some(TagsOf(it)), title := Some(TitleOf(it)))
  }

  function Without(xs: seq<string>, x: string): (r: seq<string>)
    ensures forall y :: y in r <==> y in xs && y != x
  {
    if xs == [] then []
    else
      var init, last := xs[..|xs| - 1], xs[|xs| - 1];
      assert xs == init + [last];
      Without(init, x) + (if last == x then [] else [last])
  }

  function Untag(it: Item, tag: string): Item {
    if tag in TagsOf(it) then it.(tags := Some(Without(TagsOf(it), tag))) else it
  }

  function UntagAll(items: map<ItemId, Item>, tag: string): map<ItemId, Item> {
    map id | id in items :: Untag(items[id], tag)
  }

  function Apply(v: View, e: StoreEvent): View {
    match e.body
    case AddItem(it) => v.(items := v.items[it.id := WithDefaults(it)], ord := v.ord[it.id := e.seqNo])
    case UpdateItem(id, patch) =>
      if id in v.items then v.(items := v.items[id := WithDefaults(Patched(v.items[id], patch))]) else v
    case DeleteItem(id, _) =>
      View(v.items - {id}, v.tabs, v.ord - {id},
           v.freed + (if id in v.items then BlobIds(v.items[id]) else {}))
    case CreateTab(tag) => v.(tabs := v.tabs + {tag})
    case DeleteTab(tag) => v.(tabs := v.tabs - {tag}, items := UntagAll(v.items, tag))
    case Mark(_, _) => v
  }

  function Replay(events: seq<StoreEvent>): View {
    if events == [] then EMPTY_VIEW else Apply(Replay(events[..|events| - 1]), events[|events| - 1])
  }

  lemma ReplayAppend(events: seq<StoreEvent>, e: StoreEvent)
    ensures Replay(events + [e]) == Apply(Replay(events), e)
  {
    assert (events + [e])[..|events|] == events;
  }

  lemma ReplayNext(events: seq<StoreEvent>, n: nat)
    requires n < |events|
    ensures Replay(events[..n + 1]) == Apply(Replay(events[..n]), events[n])
  {
    assert events[..n + 1][..n] == events[..n];
  }

  /** Items are filed under their own id, carry no legacy gaps, and each has a place in the order. */
  ghost predicate Coherent(v: View) {
    && v.ord.Keys == v.items.Keys
    && forall id :: id in v.items ==>
         v.items[id].id == id && v.items[id].tags.Some? && v.items[id].title.Some?
  }

  lemma {:induction false} ReplayCoherent(events: seq<StoreEvent>)
    ensures Coherent(Replay(events))
  {
    if events != [] {
      hide Apply, Coherent;
      ReplayCoherent(events[..|events| - 1]);
      ApplyCoherent(Replay(events[..|events| - 1]), events[|events| - 1]);
    } else {
      assert Replay(events) == EMPTY_VIEW;
    }
  }

  lemma ApplyCoherent(v: View, e: StoreEvent)
    requires Coherent(v)
    ensures Coherent(Apply(v, e))
  {
    hide Without;
  }

  // ---- compaction ----------------------------------------------------------------------------

  /** `order` is the insertion order of the keys of `rows`. */
  datatype Live = Live(rows: map<ItemId, Item>, order: seq<ItemId>, tabs: set<string>)

  const NOTHING_LIVE := Live(map[], [], {})

  function Absorb(c: Live, e: StoreEvent): Live {
    match e.body
    case AddItem(it) =>
      c.(rows := c.rows[it.id := it], order := if it.id in c.rows then c.order else c.order + [it.id])
    case UpdateItem(id, patch) =>
      if id in c.rows then c.(rows := c.rows[id := Patched(c.rows[id], patch)]) else c
    case DeleteItem(id, _) => c.(rows := c.rows - {id}, order := Without(c.order, id))
    case CreateTab(tag) => c.(tabs := c.tabs + {tag})
    case DeleteTab(tag) => c.(tabs := c.tabs - {tag}, rows := UntagAll(c.rows, tag))
    case Mark(_, _) => c
  }

  function Collapse(events: seq<StoreEvent>): Live {
    if events == [] then NOTHING_LIVE else Absorb(Collapse(events[..|events| - 1]), events[|events| - 1])
  }

  lemma {:induction false} WithoutDistinct(xs: seq<string>, x: string)
    requires Distinct(xs)
    ensures Distinct(Without(xs, x))
  {
    if xs != [] {
      WithoutDistinct(xs[..|xs| - 1], x);
      assert xs[|xs| - 1] !in xs[..|xs| - 1];
    }
  }

  function Defaulted(rows: map<ItemId, Item>): map<ItemId, Item> {
    map id | id in rows :: WithDefaults(rows[id])
  }

  /** What compaction remembers agrees with what loading remembers, up to defaults. */
  ghost predicate Matches(c: Live, v: View) {
    && Defaulted(c.rows) == v.items
    && c.tabs == v.tabs
    && Distinct(c.order)
    && (forall id :: id in c.order <==> id in c.rows)
    && (forall id :: id in c.rows ==> c.rows[id].id == id)
  }

  lemma DefaultedUpdate(rows: map<ItemId, Item>, id: ItemId, it: Item)
    ensures Defaulted(rows[id := it]) == Defaulted(rows)[id := WithDefaults(it)]
  {
  }

  lemma DefaultedUntag(rows: map<ItemId, Item>, tag: string)
    ensures Defaulted(UntagAll(rows, tag)) == UntagAll(Defaulted(rows), tag)
  {
    forall id | id in rows
      ensures WithDefaults(Untag(rows[id], tag)) == Untag(WithDefaults(rows[id]), tag)
    {
    }
  }

  lemma MatchesStep(c: Live, v: View, e: StoreEvent)
    requires Matches(c, v)
    ensures Matches(Absorb(c, e), Apply(v, e))
  {
    hide Matches;
    match e.body
    case AddItem(it) => MatchesAdd(c, v, e);
    case UpdateItem(id, patch) =>
      MatchesUpdate(c, v, e);
    case DeleteItem(id, _) => MatchesDelete(c, v, e);
    case CreateTab(_) => MatchesTab(c, v, e);
    case DeleteTab(tag) => MatchesTab(c, v, e);
    case Mark(_, _) => assert Absorb(c, e) == c && Apply(v, e) == v;
  }

  lemma MatchesUpdate(c: Live, v: View, e: StoreEvent)
    requires Matches(c, v) && e.body.UpdateItem?
    ensures Matches(Absorb(c, e), Apply(v, e))
  {
    var id, patch := e.body.id, e.body.patch;
    if id in c.rows {
      assert id in Defaulted(c.rows);
      assert WithDefaults(Patched(c.rows[id], patch)) == WithDefaults(Patched(WithDefaults(c.rows[id]), patch));
      DefaultedUpdate(c.rows, id, Patched(c.rows[id], patch));
      hide Defaulted;
    } else {
      assert id !in Defaulted(c.rows);
    }
  }

  lemma MatchesTab(c: Live, v: View, e: StoreEvent)
    requires Matches(c, v) && (e.body.CreateTab? || e.body.DeleteTab?)
    ensures Matches(Absorb(c, e), Apply(v, e))
  {
    hide Defaulted, Without;
    if e.body.DeleteTab? {
      DefaultedUntag(c.rows, e.body.tag);
    }
  }

  lemma MatchesAdd(c: Live, v: View, e: StoreEvent)
    requires Matches(c, v) && e.body.AddItem?
    ensures Matches(Absorb(c, e), Apply(v, e))
  {
    DefaultedUpdate(c.rows, e.body.item.id, e.body.item);
  }

  lemma MatchesDelete(c: Live, v: View, e: StoreEvent)
    requires Matches(c, v) && e.body.DeleteItem?
    ensures Matches(Absorb(c, e), Apply(v, e))
  {
    hide WithDefaults, BlobIds;
    WithoutDistinct(c.order, e.body.id);
    assert Defaulted(c.rows - {e.body.id}) == Defaulted(c.rows) - {e.body.id};
  }

  lemma {:induction false} CollapseMatchesReplay(events: seq<StoreEvent>)
    ensures Matches(Collapse(events), Replay(events))
  {
    if events == [] {
      assert Defaulted(map[]) == map[];
    } else {
      CollapseMatchesReplay(events[..|events| - 1]);
      MatchesStep(Collapse(events[..|events| - 1]), Replay(events[..|events| - 1]), events[|events| - 1]);
    }
  }

  /** Items the caller asked for that are still live, in the order they were added. */
  function Kept(order: seq<ItemId>, requested: set<ItemId>): (kept: seq<ItemId>)
    ensures forall id :: id in kept <==> id in order && id in requested
    ensures Distinct(order) ==> Distinct(kept)
  {
    if order == [] then []
    else
      var init, last := order[..|order| - 1], order[|order| - 1];
      assert order == init + [last];
      Kept(init, requested) + (if last in requested then [last] else [])
  }

  /** The records of a new generation: an anchor, one add per kept item, one create per tab. */
  function GenerationBodies(c: Live, kept: seq<ItemId>, tabOrder: seq<string>, maxSeq: int): seq<Body>
    requires forall id :: id in kept ==> id in c.rows
  {
    [Mark(maxSeq, |kept|)]
    + seq(|kept|, i requires 0 <= i < |kept| => AddItem(c.rows[kept[i]]))
    + seq(|tabOrder|, i requires 0 <= i < |tabOrder| => CreateTab(tabOrder[i]))
  }

  /** `events` carries these bodies, numbered without a gap from `base`. */
  ghost predicate Numbered(events: seq<StoreEvent>, bodies: seq<Body>, base: int) {
    && |events| == |bodies|
    && forall i :: 0 <= i < |events| ==> events[i].body == bodies[i] && events[i].seqNo == base + i
  }

  ghost predicate Enumerates(xs: seq<string>, s: set<string>) {
    Distinct(xs) && forall x :: x in xs <==> x in s
  }

  function Restrict(items: map<ItemId, Item>, ids: set<ItemId>): map<ItemId, Item> {
    map id | id in items && id in ids :: items[id]
  }

  /** A state whose items are exactly the first k kept ones, numbered upwards from base + 1. */
  ghost predicate HoldsFirst(v: View, c: Live, kept: seq<ItemId>, base: int, k: nat)
    requires k <= |kept|
    requires forall id :: id in kept ==> id in c.rows
  {
    && v.items == (map id | id in kept[..k] :: WithDefaults(c.rows[id]))
    && (forall i :: 0 <= i < k ==> kept[i] in v.ord && v.ord[kept[i]] == base + 1 + i)
    && v.freed == {}
  }

  ghost predicate FiledById(c: Live, kept: seq<ItemId>) {
    forall id :: id in kept ==> id in c.rows && c.rows[id].id == id
  }

  ghost predicate AddsFollowAnchor(events: seq<StoreEvent>, c: Live, kept: seq<ItemId>, base: int)
    requires FiledById(c, kept) && |kept| < |events|
  {
    forall i :: 0 <= i < |kept| ==>
      events[1 + i].body == AddItem(c.rows[kept[i]]) && events[1 + i].seqNo == base + 1 + i
  }

  ghost predicate TabsFollow(events: seq<StoreEvent>, start: nat, tabOrder: seq<string>)
    requires start + |tabOrder| <= |events|
  {
    forall i :: 0 <= i < |tabOrder| ==> events[start + i].body == CreateTab(tabOrder[i])
  }

  lemma {:induction false} ReplayOfAdds(
      events: seq<StoreEvent>, c: Live, kept: seq<ItemId>, base: int, k: nat)
    requires k <= |kept| < |events|
    requires FiledById(c, kept) && Distinct(kept)
    requires events[0].body.Mark?
    requires AddsFollowAnchor(events, c, kept, base)
    ensures HoldsFirst(Replay(events[..k + 1]), c, kept, base, k)
    ensures Replay(events[..k + 1]).tabs == {}
  {
    if k == 0 {
      assert events[..1][..0] == [];
    } else {
      ReplayOfAdds(events, c, kept, base, k - 1);
      ReplayNext(events, k);
      assert events[1 + (k - 1)].body == AddItem(c.rows[kept[k - 1]]);
      hide Replay, HoldsFirst, AddsFollowAnchor;
      HoldsNext(Replay(events[..k]), events[k], c, kept, base, k);
    }
  }

  lemma AddedView(v: View, e: StoreEvent, it: Item)
    requires e.body == AddItem(it)
    ensures Apply(v, e) == v.(items := v.items[it.id := WithDefaults(it)], ord := v.ord[it.id := e.seqNo])
  {
  }

  lemma HoldsNext(v: View, e: StoreEvent, c: Live, kept: seq<ItemId>, base: int, k: nat)
    requires 0 < k <= |kept| && FiledById(c, kept) && Distinct(kept) && HoldsFirst(v, c, kept, base, k - 1)
    requires e.body == AddItem(c.rows[kept[k - 1]]) && e.seqNo == base + k
    ensures HoldsFirst(Apply(v, e), c, kept, base, k) && Apply(v, e).tabs == v.tabs
  {
    var id := kept[k - 1];
    hide WithDefaults, TagsOf, TitleOf;
    assert id in kept && kept[..k] == kept[..k - 1] + [id];
    assert forall i :: 0 <= i < k - 1 ==> kept[i] != id;
    AddedView(v, e, c.rows[id]);
    hide Apply, Distinct, FiledById;
  }

  function Members(xs: seq<string>): set<string> {
    set x | x in xs
  }

  lemma NoMembers()
    ensures Members([]) == {}
  {
  }

  lemma MembersNext(xs: seq<string>, k: nat)
    requires k < |xs|
    ensures Members(xs[..k + 1]) == Members(xs[..k]) + {xs[k]}
  {
    assert xs[..k + 1] == xs[..k] + [xs[k]];
  }

  lemma TabStep(events: seq<StoreEvent>, start: nat, tabOrder: seq<string>, k: nat)
    requires k < |tabOrder| && start + |tabOrder| <= |events| && TabsFollow(events, start, tabOrder)
    ensures var v := Replay(events[..start + k]);
            Replay(events[..start + k + 1]) == v.(tabs := v.tabs + {tabOrder[k]})
  {
    ReplayNext(events, start + k);
    hide Replay;
    assert events[start + k].body == CreateTab(tabOrder[k]);
  }

  lemma {:induction false} ReplayOfTabs(events: seq<StoreEvent>, start: nat, tabOrder: seq<string>, k: nat)
    requires k <= |tabOrder| && start + |tabOrder| <= |events|
    requires TabsFollow(events, start, tabOrder)
    ensures var v := Replay(events[..start]);
            Replay(events[..start + k]) == v.(tabs := v.tabs + Members(tabOrder[..k]))
  {
    hide Replay, Apply, Members, TabsFollow;
    if k == 0 {
      NoMembers();
      assert tabOrder[..0] == [];
      assert Replay(events[..start]).tabs + {} == Replay(events[..start]).tabs;
    } else {
      ReplayOfTabs(events, start, tabOrder, k - 1);
      TabStep(events, start, tabOrder, k - 1);
      MembersNext(tabOrder, k - 1);
      var tabs := Replay(events[..start]).tabs;
      assert tabs + Members(tabOrder[..k - 1]) + {tabOrder[k - 1]} == tabs + Members(tabOrder[..k]);
    }
  }

  lemma GenerationLayout(
      events: seq<StoreEvent>, c: Live, kept: seq<ItemId>, tabOrder: seq<string>, maxSeq: int, base: int)
    requires FiledById(c, kept)
    requires Numbered(events, GenerationBodies(c, kept, tabOrder, maxSeq), base)
    ensures |events| == 1 + |kept| + |tabOrder| && events[0].body.Mark?
    ensures AddsFollowAnchor(events, c, kept, base)
    ensures TabsFollow(events, 1 + |kept|, tabOrder)
  {
    var bodies := GenerationBodies(c, kept, tabOrder, maxSeq);
    forall i | 0 <= i < |kept|
      ensures events[1 + i].body == AddItem(c.rows[kept[i]]) && events[1 + i].seqNo == base + 1 + i
    {
      assert bodies[1 + i] == AddItem(c.rows[kept[i]]);
    }
    forall i | 0 <= i < |tabOrder|
      ensures events[1 + |kept| + i].body == CreateTab(tabOrder[i])
    {
      assert bodies[1 + |kept| + i] == CreateTab(tabOrder[i]);
    }
  }

  lemma ReplayOfLayout(events: seq<StoreEvent>, c: Live, kept: seq<ItemId>, tabOrder: seq<string>, base: int)
    requires FiledById(c, kept) && Distinct(kept)
    requires |events| == 1 + |kept| + |tabOrder| && events[0].body.Mark?
    requires AddsFollowAnchor(events, c, kept, base)
    requires TabsFollow(events, 1 + |kept|, tabOrder)
    ensures HoldsFirst(Replay(events), c, kept, base, |kept|)
    ensures Replay(events).tabs == (set t | t in tabOrder)
  {
    hide Replay, AddsFollowAnchor, TabsFollow;
    var start := 1 + |kept|;
    ReplayOfAdds(events, c, kept, base, |kept|);
    ReplayOfTabs(events, start, tabOrder, |tabOrder|);
    assert events[..start + |tabOrder|] == events;
    assert tabOrder[..|tabOrder|] == tabOrder;
  }

  /** `events` is a generation that compacting `history` down to `requested` may write. */
  ghost predicate IsCompactionOf(
      events: seq<StoreEvent>, history: seq<StoreEvent>, requested: set<ItemId>, tabOrder: seq<string>, base: int)
  {
    var c := Collapse(history);
    && Enumerates(tabOrder, c.tabs)
    && (forall id :: id in Kept(c.order, requested) ==> id in c.rows)
    && Numbered(events, GenerationBodies(c, Kept(c.order, requested), tabOrder, base - 1), base)
  }

  /**
   * Compaction preserves meaning. Replaying the new generation gives the old items restricted to
   * the requested ids, the same tabs, nothing to free, and order numbers that count upwards in the
   * order the items were added.
   */
  lemma CompactionPreservesMeaning(
      history: seq<StoreEvent>, requested: set<ItemId>, tabOrder: seq<string>, base: int, events: seq<StoreEvent>)
    requires IsCompactionOf(events, history, requested, tabOrder, base)
    ensures Replay(events).items == Restrict(Replay(history).items, requested)
    ensures Replay(events).tabs == Replay(history).tabs
    ensures Replay(events).freed == {}
    ensures var kept := Kept(Collapse(history).order, requested);
            && (forall id :: id in kept <==> id in Replay(events).items)
            && forall i :: 0 <= i < |kept| ==>
                 kept[i] in Replay(events).ord && Replay(events).ord[kept[i]] == base + 1 + i
  {
    hide Replay, Collapse, GenerationBodies;
    CollapseMatchesReplay(history);
    var c := Collapse(history);
    var kept := Kept(c.order, requested);
    GenerationLayout(events, c, kept, tabOrder, base - 1, base);
    ReplayOfLayout(events, c, kept, tabOrder, base);
    assert kept[..|kept|] == kept;
    KeptRowsAreRestriction(c, kept, requested);
  }

  lemma KeptRowsAreRestriction(c: Live, kept: seq<ItemId>, requested: set<ItemId>)
    requires forall id :: id in kept <==> id in c.rows && id in requested
    ensures (map id | id in kept :: WithDefaults(c.rows[id])) == Restrict(Defaulted(c.rows), requested)
  {
  }

  // ---- list order across a compaction --------------------------------------------------------

  ghost predicate Ascending(ids: seq<ItemId>, ord: map<ItemId, int>) {
    && (forall id :: id in ids ==> id in ord)
    && forall i, j :: 0 <= i < j < |ids| ==> ord[ids[i]] < ord[ids[j]]
  }

  ghost predicate SeqsAscend(events: seq<StoreEvent>) {
    forall i, j :: 0 <= i < j < |events| ==> events[i].seqNo < events[j].seqNo
  }

  /** No record adds an id that is live at that moment. */
  ghost predicate NoLiveReAdd(events: seq<StoreEvent>) {
    events == []
    || (var init, e := events[..|events| - 1], events[|events| - 1];
        NoLiveReAdd(init) && (e.body.AddItem? ==> e.body.item.id !in Replay(init).items))
  }

  lemma {:induction false} WithoutAscending(ids: seq<ItemId>, x: ItemId, ord: map<ItemId, int>)
    requires Ascending(ids, ord)
    ensures Ascending(Without(ids, x), ord - {x})
  {
    if ids != [] {
      var init := ids[..|ids| - 1];
      WithoutAscending(init, x, ord);
      forall y | y in init
        ensures ord[y] < ord[ids[|ids| - 1]]
      {
        var i :| 0 <= i < |init| && init[i] == y;
        assert ids[i] == y;
      }
    }
  }

  lemma {:induction false} KeptAscending(ids: seq<ItemId>, requested: set<ItemId>, ord: map<ItemId, int>)
    requires Ascending(ids, ord)
    ensures Ascending(Kept(ids, requested), ord)
  {
    if ids != [] {
      var init, last := ids[..|ids| - 1], ids[|ids| - 1];
      AscendingInit(ids, ord);
      hide Ascending;
      KeptAscending(init, requested, ord);
      if last in requested {
        AscendingSnoc(Kept(init, requested), last, ord);
      }
    }
  }

  lemma AscendingInit(ids: seq<ItemId>, ord: map<ItemId, int>)
    requires Ascending(ids, ord) && ids != []
    ensures var init, last := ids[..|ids| - 1], ids[|ids| - 1];
            && Ascending(init, ord) && last in ord
            && forall y :: y in init ==> y in ord && ord[y] < ord[last]
  {
    var init := ids[..|ids| - 1];
    forall y | y in init
      ensures y in ord && ord[y] < ord[ids[|ids| - 1]]
    {
      var i :| 0 <= i < |init| && init[i] == y;
      assert ids[i] == y;
    }
  }

  lemma AscendingSnoc(ids: seq<ItemId>, last: ItemId, ord: map<ItemId, int>)
    requires Ascending(ids, ord) && last in ord && forall y :: y in ids ==> y in ord && ord[y] < ord[last]
    ensures Ascending(ids + [last], ord)
  {
    assert forall i :: 0 <= i < |ids| ==> ids[i] in ids;
  }

  /** While no live id is re-added, insertion order and order numbers tell the same story. */
  lemma {:induction false} InsertionOrderAscends(events: seq<StoreEvent>)
    requires NoLiveReAdd(events) && SeqsAscend(events)
    ensures Ascending(Collapse(events).order, Replay(events).ord)
    ensures forall id :: id in Replay(events).ord ==>
              events != [] && Replay(events).ord[id] <= events[|events| - 1].seqNo
  {
    if events != [] {
      var init, e := events[..|events| - 1], events[|events| - 1];
      InsertionOrderAscends(init);
      CollapseMatchesReplay(init);
      var c, v := Collapse(init), Replay(init);
      assert init != [] ==> init[|init| - 1].seqNo < e.seqNo;
      match e.body
      case AddItem(it) =>
        assert it.id !in Defaulted(c.rows);
        assert it.id !in c.order;
      case DeleteItem(id, _) => WithoutAscending(c.order, id, v.ord);
      case _ =>
    }
  }

  /** Every two kept items compare the same way before and after. */
  ghost predicate SameRelativeOrder(kept: seq<ItemId>, before: map<ItemId, int>, after: map<ItemId, int>)
    requires forall id :: id in kept ==> id in before && id in after
  {
    forall a, b :: a in kept && b in kept ==> (before[a] < before[b] <==> after[a] < after[b])
  }

  /**
   * Compaction keeps the recency tiebreak exactly when the kept items' order numbers ascended in
   * insertion order beforehand.
   */
  lemma CompactionKeepsOrderIff(
      history: seq<StoreEvent>, requested: set<ItemId>, tabOrder: seq<string>, base: int, events: seq<StoreEvent>)
    requires IsCompactionOf(events, history, requested, tabOrder, base)
    ensures var kept := Kept(Collapse(history).order, requested);
            && (forall id :: id in kept ==> id in Replay(history).ord && id in Replay(events).ord)
            && (SameRelativeOrder(kept, Replay(history).ord, Replay(events).ord)
                <==> Ascending(kept, Replay(history).ord))
  {
    hide IsCompactionOf, Replay, Collapse, SameRelativeOrder, Ascending, Kept;
    CompactionPreservesMeaning(history, requested, tabOrder, base, events);
    CollapseMatchesReplay(history);
    ReplayCoherent(history);
    ReplayCoherent(events);
    var kept := Kept(Collapse(history).order, requested);
    var before, after := Replay(history).ord, Replay(events).ord;
    forall id | id in kept
      ensures id in before && id in after
    {
      assert id in Collapse(history).order && id in Collapse(history).rows;
      assert id in Defaulted(Collapse(history).rows) && id in Replay(events).items;
    }
    forall i | 0 <= i < |kept|
      ensures after[kept[i]] == base + 1 + i
    {
    }
    OrdersAgreeIff(kept, before, after, base);
  }

  lemma OrdersAgreeIff(kept: seq<ItemId>, before: map<ItemId, int>, after: map<ItemId, int>, base: int)
    requires forall id :: id in kept ==> id in before && id in after
    requires forall i :: 0 <= i < |kept| ==> after[kept[i]] == base + 1 + i
    ensures SameRelativeOrder(kept, before, after) <==> Ascending(kept, before)
  {
    if SameRelativeOrder(kept, before, after) {
      forall i, j | 0 <= i < j < |kept|
        ensures before[kept[i]] < before[kept[j]]
      {
        assert kept[i] in kept && kept[j] in kept;
      }
    }
    if Ascending(kept, before) {
      forall a, b | a in kept && b in kept
        ensures before[a] < before[b] <==> after[a] < after[b]
      {
        var i :| 0 <= i < |kept| && kept[i] == a;
        var j :| 0 <= j < |kept| && kept[j] == b;
      }
    }
  }

  lemma CompactionKeepsOrder(
      history: seq<StoreEvent>, requested: set<ItemId>, tabOrder: seq<string>, base: int, events: seq<StoreEvent>)
    requires IsCompactionOf(events, history, requested, tabOrder, base)
    requires NoLiveReAdd(history) && SeqsAscend(history)
    ensures var kept := Kept(Collapse(history).order, requested);
            && (forall id :: id in kept ==> id in Replay(history).ord && id in Replay(events).ord)
            && SameRelativeOrder(kept, Replay(history).ord, Replay(events).ord)
  {
    InsertionOrderAscends(history);
    KeptAscending(Collapse(history).order, requested, Replay(history).ord);
    CompactionKeepsOrderIff(history, requested, tabOrder, base, events);
  }

  lemma CollapseAppend(events: seq<StoreEvent>, e: StoreEvent)
    ensures Collapse(events + [e]) == Absorb(Collapse(events), e)
  {
    assert (events + [e])[..|events|] == events;
  }

  lemma KeptBoth(x: ItemId, y: ItemId)
    ensures Kept([x, y], {x, y}) == [x, y]
  {
    assert [x, y][..1] == [x] && [x][..0] == [];
    assert Kept([x], {x, y}) == [x];
  }

  lemma AddTwiceThenAgain(e1: StoreEvent, e2: StoreEvent, e3: StoreEvent)
    requires e1.body.AddItem? && e2.body.AddItem? && e3.body.AddItem?
    requires e1.body.item.id == e3.body.item.id != e2.body.item.id
    ensures Collapse([e1, e2, e3]).order == [e1.body.item.id, e2.body.item.id]
    ensures Replay([e1, e2, e3]).ord == map[e1.body.item.id := e3.seqNo, e2.body.item.id := e2.seqNo]
  {
    assert [] + [e1] == [e1] && [e1] + [e2] == [e1, e2] && [e1, e2] + [e3] == [e1, e2, e3];
    ReplayAppend([], e1);
    ReplayAppend([e1], e2);
    ReplayAppend([e1, e2], e3);
    CollapseAppend([], e1);
    CollapseAppend([e1], e2);
    CollapseAppend([e1, e2], e3);
    assert Collapse([]) == NOTHING_LIVE && Replay([]) == EMPTY_VIEW;
    hide Collapse, Replay;
    assert Collapse([e1, e2]).order == [e1.body.item.id, e2.body.item.id];
  }

  /** Re-adding a live id moves it up the list, and compaction then moves it back. */
  lemma ReAddedItemChangesPlace(a: Item, b: Item)
    requires a.id != b.id
    ensures var history := [StoreEvent(2, 0, AddItem(a)), StoreEvent(3, 0, AddItem(b)), StoreEvent(4, 0, AddItem(a))];
            && Collapse(history).order == [a.id, b.id]
            && Replay(history).ord == map[a.id := 4, b.id := 3]
            && !Ascending(Kept(Collapse(history).order, {a.id, b.id}), Replay(history).ord)
  {
    hide Collapse, Replay, Kept;
    AddTwiceThenAgain(StoreEvent(2, 0, AddItem(a)), StoreEvent(3, 0, AddItem(b)), StoreEvent(4, 0, AddItem(a)));
    KeptBoth(a.id, b.id);
  }
}
