/** Which items retention deletes, and why the answer does not depend on the order they are given in. */
module Retention {
  import opened Domain
  import opened Sorting

  datatype Limits = Limits(maxItems: int, maxAgeMs: Option<int>, maxBytes: int)

  datatype Eviction = Eviction(id: ItemId, reason: DeleteReason)

  /** Kept regardless of age, count and bytes: pinned, or filed in a tab. */
  predicate IsKept(it: Item) {
    it.pinned || |TagsOf(it)| > 0
  }

  predicate IsSyncableDelete(reason: DeleteReason) {
    reason == ByUser
  }

  /** Newest first, the larger id first among equals. */
  function NewestFirst(): (Item, Item) -> bool {
    (a: Item, b: Item) => a.updatedAt > b.updatedAt || (a.updatedAt == b.updatedAt && !LexLess(a.id, b.id))
  }

  ghost predicate DistinctIds(items: seq<Item>) {
    forall i, j :: 0 <= i < j < |items| ==> items[i].id != items[j].id
  }

  // ---- the plan, as a function of the sorted items -------------------------------------------

  predicate Expired(it: Item, now: int) {
    it.expiresAt.Some? && now >= it.expiresAt.value
  }

  predicate Aged(it: Item, now: int, limits: Limits) {
    !IsKept(it) && !Expired(it, now) && limits.maxAgeMs.Some? && now - it.createdAt >= limits.maxAgeMs.value
  }

  /** Subject to the count and byte limits. */
  predicate Contender(it: Item, now: int, limits: Limits) {
    !IsKept(it) && !Expired(it, now) && !Aged(it, now, limits)
  }

  datatype Class = IsExpired | IsAged | IsContender

  predicate InClass(it: Item, c: Class, now: int, limits: Limits) {
    match c
    case IsExpired => Expired(it, now)
    case IsAged => Aged(it, now, limits)
    case IsContender => Contender(it, now, limits)
  }

  function Where(items: seq<Item>, c: Class, now: int, limits: Limits): (r: seq<Item>)
    ensures forall it :: it in r <==> it in items && InClass(it, c, now, limits)
  {
    if items == [] then []
    else
      var init, last := items[..|items| - 1], items[|items| - 1];
      assert items == init + [last];
      Where(init, c, now, limits) + (if InClass(last, c, now, limits) then [last] else [])
  }

  function Condemned(items: seq<Item>, reason: DeleteReason): seq<Eviction> {
    seq(|items|, i requires 0 <= i < |items| => Eviction(items[i].id, reason))
  }

  function Bytes(items: seq<Item>): (n: nat) {
    if items == [] then 0 else Bytes(items[..|items| - 1]) + items[|items| - 1].byteLength
  }

  /** How many leading items the count limit lets stay. */
  function CountFit(n: nat, limits: Limits): nat {
    if limits.maxItems < 0 then 0 else if limits.maxItems < n then limits.maxItems else n
  }

  /** How many leading items the byte limit lets stay. */
  function BytesFit(items: seq<Item>, limits: Limits): (n: nat)
    ensures n <= |items|
  {
    if items == [] then 0
    else
      var n := BytesFit(items[..|items| - 1], limits);
      if n == |items| - 1 && Bytes(items) <= limits.maxBytes then |items| else n
  }

  function Plan(sorted: seq<Item>, now: int, limits: Limits): seq<Eviction> {
    var contenders := Where(sorted, IsContender, now, limits);
    var counted := contenders[..CountFit(|contenders|, limits)];
    Condemned(Where(sorted, IsExpired, now, limits), SecretTtl)
    + Condemned(Where(sorted, IsAged, now, limits), RetentionAge)
    + Condemned(contenders[|counted|..], RetentionCount)
    + Condemned(counted[BytesFit(counted, limits)..], RetentionBytes)
  }

  // ---- the four passes -----------------------------------------------------------------------

  function Ids(plan: seq<Eviction>): set<ItemId> {
    set i | 0 <= i < |plan| :: plan[i].id
  }

  lemma IdsOf(plan: seq<Eviction>, e: Eviction)
    ensures Ids(plan + [e]) == Ids(plan) + {e.id}
  {
    assert forall i :: 0 <= i < |plan| ==> (plan + [e])[i] == plan[i];
    assert (plan + [e])[|plan|] == e;
  }

  lemma WhereNext(items: seq<Item>, i: nat, c: Class, now: int, limits: Limits)
    requires i < |items|
    ensures Where(items[..i + 1], c, now, limits)
         == Where(items[..i], c, now, limits) + (if InClass(items[i], c, now, limits) then [items[i]] else [])
  {
    assert items[..i + 1][..i] == items[..i];
  }

  lemma CondemnedAppend(items: seq<Item>, it: Item, reason: DeleteReason)
    ensures Condemned(items + [it], reason) == Condemned(items, reason) + [Eviction(it.id, reason)]
  {
  }

  /** The first pass: secrets whose time is up, kept or not. */
  method CondemnExpired(sorted: seq<Item>, now: int, ghost limits: Limits)
    returns (evictions: seq<Eviction>, doomed: set<ItemId>)
    requires DistinctIds(sorted)
    ensures evictions == Condemned(Where(sorted, IsExpired, now, limits), SecretTtl)
    ensures forall it :: it in sorted ==> (it.id in doomed <==> Expired(it, now))
  {
    evictions, doomed := [], {};
    for i := 0 to |sorted|
      invariant evictions == Condemned(Where(sorted[..i], IsExpired, now, limits), SecretTtl)
      invariant forall j :: 0 <= j < |sorted| ==> (sorted[j].id in doomed <==> j < i && Expired(sorted[j], now))
    {
      var it := sorted[i];
      WhereNext(sorted, i, IsExpired, now, limits);
      if it.expiresAt.Some? && now >= it.expiresAt.value {
        CondemnedAppend(Where(sorted[..i], IsExpired, now, limits), it, SecretTtl);
        doomed, evictions := doomed + {it.id}, evictions + [Eviction(it.id, SecretTtl)];
      }
    }
    assert sorted[..|sorted|] == sorted;
  }

  /** The second pass: age. */
  method CondemnAged(sorted: seq<Item>, now: int, limits: Limits, doomed0: set<ItemId>)
    returns (evictions: seq<Eviction>, doomed: set<ItemId>)
    requires DistinctIds(sorted)
    requires forall it :: it in sorted ==> (it.id in doomed0 <==> Expired(it, now))
    ensures evictions == Condemned(Where(sorted, IsAged, now, limits), RetentionAge)
    ensures forall it :: it in sorted ==> (it.id in doomed <==> Expired(it, now) || Aged(it, now, limits))
  {
    evictions, doomed := [], doomed0;
    for i := 0 to |sorted|
      invariant evictions == Condemned(Where(sorted[..i], IsAged, now, limits), RetentionAge)
      invariant forall j :: 0 <= j < |sorted| ==>
        (sorted[j].id in doomed <==> Expired(sorted[j], now) || (j < i && Aged(sorted[j], now, limits)))
    {
      var it := sorted[i];
      WhereNext(sorted, i, IsAged, now, limits);
      if !(IsKept(it) || it.id in doomed) {
        if limits.maxAgeMs.Some? && now - it.createdAt >= limits.maxAgeMs.value {
          CondemnedAppend(Where(sorted[..i], IsAged, now, limits), it, RetentionAge);
          doomed, evictions := doomed + {it.id}, evictions + [Eviction(it.id, RetentionAge)];
        }
      }
    }
    assert sorted[..|sorted|] == sorted;
  }

  /** How many contenders stand before position i. */
  function Rank(sorted: seq<Item>, i: nat, now: int, limits: Limits): nat
    requires i <= |sorted|
  {
    |Where(sorted[..i], IsContender, now, limits)|
  }

  function Counted(sorted: seq<Item>, now: int, limits: Limits): seq<Item> {
    var contenders := Where(sorted, IsContender, now, limits);
    contenders[..CountFit(|contenders|, limits)]
  }

  lemma CountedNext(sorted: seq<Item>, i: nat, now: int, limits: Limits)
    requires i < |sorted|
    ensures Counted(sorted[..i + 1], now, limits)
         == Counted(sorted[..i], now, limits)
            + (if Contender(sorted[i], now, limits) && Rank(sorted, i, now, limits) < limits.maxItems
               then [sorted[i]] else [])
  {
    WhereNext(sorted, i, IsContender, now, limits);
  }

  /** What the third pass has condemned before position i. */
  function CountPlan(sorted: seq<Item>, i: nat, now: int, limits: Limits): seq<Eviction>
    requires i <= |sorted|
  {
    var before := Where(sorted[..i], IsContender, now, limits);
    Condemned(before[CountFit(|before|, limits)..], RetentionCount)
  }

  /** Too old in either way, or over the count limit among the first i items. */
  predicate DoomedBefore(sorted: seq<Item>, j: nat, i: nat, now: int, limits: Limits)
    requires j < |sorted|
  {
    Expired(sorted[j], now) || Aged(sorted[j], now, limits)
    || (j < i && Contender(sorted[j], now, limits) && Rank(sorted, j, now, limits) >= limits.maxItems)
  }

  ghost predicate DoomedUpTo(sorted: seq<Item>, doomed: set<ItemId>, i: nat, now: int, limits: Limits) {
    forall j :: 0 <= j < |sorted| ==> (sorted[j].id in doomed <==> DoomedBefore(sorted, j, i, now, limits))
  }

  lemma CountNext(sorted: seq<Item>, i: nat, now: int, limits: Limits)
    requires i < |sorted|
    ensures var counts := Contender(sorted[i], now, limits);
            && Rank(sorted, i + 1, now, limits) == Rank(sorted, i, now, limits) + (if counts then 1 else 0)
            && CountPlan(sorted, i + 1, now, limits)
               == CountPlan(sorted, i, now, limits)
                  + (if counts && Rank(sorted, i, now, limits) >= limits.maxItems
                     then [Eviction(sorted[i].id, RetentionCount)] else [])
  {
    WhereNext(sorted, i, IsContender, now, limits);
    hide Where;
    var before, it := Where(sorted[..i], IsContender, now, limits), sorted[i];
    var cut := CountFit(|before|, limits);
    if Contender(it, now, limits) && |before| >= limits.maxItems {
      assert (before + [it])[cut..] == before[cut..] + [it];
      CondemnedAppend(before[cut..], it, RetentionCount);
    } else {
      assert before + [] == before;
    }
  }

  lemma DoomNext(sorted: seq<Item>, doomed: set<ItemId>, i: nat, now: int, limits: Limits)
    requires DistinctIds(sorted) && i < |sorted| && DoomedUpTo(sorted, doomed, i, now, limits)
    ensures Contender(sorted[i], now, limits) <==> !(IsKept(sorted[i]) || sorted[i].id in doomed)
    ensures var over := Contender(sorted[i], now, limits) && Rank(sorted, i, now, limits) >= limits.maxItems;
            DoomedUpTo(sorted, if over then doomed + {sorted[i].id} else doomed, i + 1, now, limits)
  {
    hide Rank;
    assert DoomedBefore(sorted, i, i, now, limits) <==> sorted[i].id in doomed;
  }

  /** The third pass: count. */
  method CondemnByCount(sorted: seq<Item>, now: int, limits: Limits, doomed0: set<ItemId>)
    returns (evictions: seq<Eviction>, doomed: set<ItemId>)
    requires DistinctIds(sorted)
    requires forall it :: it in sorted ==> (it.id in doomed0 <==> Expired(it, now) || Aged(it, now, limits))
    ensures evictions == CountPlan(sorted, |sorted|, now, limits)
    ensures DoomedUpTo(sorted, doomed, |sorted|, now, limits)
  {
    evictions, doomed := [], doomed0;
    var kept := 0;
    assert Rank(sorted, 0, now, limits) == 0 && CountPlan(sorted, 0, now, limits) == [];
    assert DoomedUpTo(sorted, doomed, 0, now, limits);
    hide Rank, CountPlan, DoomedUpTo, DistinctIds, Contender, IsKept;
    for i := 0 to |sorted|
      invariant kept == Rank(sorted, i, now, limits) && evictions == CountPlan(sorted, i, now, limits)
      invariant DoomedUpTo(sorted, doomed, i, now, limits)
    {
      var it := sorted[i];
      CountNext(sorted, i, now, limits);
      DoomNext(sorted, doomed, i, now, limits);
      if !(IsKept(it) || it.id in doomed) {
        kept := kept + 1;
        if kept > limits.maxItems {
          doomed, evictions := doomed + {it.id}, evictions + [Eviction(it.id, RetentionCount)];
        }
      }
    }
  }

  lemma {:induction false} AllFit(items: seq<Item>, limits: Limits)
    requires Bytes(items) <= limits.maxBytes
    ensures BytesFit(items, limits) == |items|
  {
    if items != [] {
      AllFit(items[..|items| - 1], limits);
    }
  }

  lemma BytesFitNext(items: seq<Item>, it: Item, limits: Limits)
    ensures Bytes(items + [it]) == Bytes(items) + it.byteLength
    ensures var n := BytesFit(items, limits);
            (items + [it])[BytesFit(items + [it], limits)..]
            == if Bytes(items + [it]) <= limits.maxBytes then [] else items[n..] + [it]
    ensures Bytes(items + [it]) <= limits.maxBytes ==> items[BytesFit(items, limits)..] == []
  {
    assert (items + [it])[..|items|] == items;
    if Bytes(items + [it]) <= limits.maxBytes {
      AllFit(items, limits);
    }
  }

  /** What the fourth pass has condemned before position i. */
  function BytesPlan(sorted: seq<Item>, i: nat, now: int, limits: Limits): seq<Eviction>
    requires i <= |sorted|
  {
    var counted := Counted(sorted[..i], now, limits);
    Condemned(counted[BytesFit(counted, limits)..], RetentionBytes)
  }

  /** Within the count limit, so the byte limit looks at it. */
  predicate Weighed(sorted: seq<Item>, i: nat, now: int, limits: Limits)
    requires i < |sorted|
  {
    Contender(sorted[i], now, limits) && Rank(sorted, i, now, limits) < limits.maxItems
  }

  lemma BytesNext(sorted: seq<Item>, i: nat, now: int, limits: Limits)
    requires i < |sorted|
    ensures var before, after := Counted(sorted[..i], now, limits), Counted(sorted[..i + 1], now, limits);
            && Bytes(after) == Bytes(before) + (if Weighed(sorted, i, now, limits) then sorted[i].byteLength else 0)
            && BytesPlan(sorted, i + 1, now, limits)
               == BytesPlan(sorted, i, now, limits)
                  + (if Weighed(sorted, i, now, limits) && Bytes(after) > limits.maxBytes
                     then [Eviction(sorted[i].id, RetentionBytes)] else [])
  {
    CountedNext(sorted, i, now, limits);
    hide Counted, Bytes, BytesFit, Rank, Condemned;
    var counted := Counted(sorted[..i], now, limits);
    HeavyNext(counted, sorted[i], limits);
    assert counted + [] == counted;
  }

  lemma HeavyNext(counted: seq<Item>, it: Item, limits: Limits)
    ensures Bytes(counted + [it]) == Bytes(counted) + it.byteLength
    ensures Condemned((counted + [it])[BytesFit(counted + [it], limits)..], RetentionBytes)
         == Condemned(counted[BytesFit(counted, limits)..], RetentionBytes)
            + (if Bytes(counted + [it]) > limits.maxBytes then [Eviction(it.id, RetentionBytes)] else [])
  {
    BytesFitNext(counted, it, limits);
    CondemnedAppend(counted[BytesFit(counted, limits)..], it, RetentionBytes);
    hide Bytes, BytesFit;
  }

  lemma WeighedIffSpared(sorted: seq<Item>, doomed0: set<ItemId>, i: nat, now: int, limits: Limits)
    requires i < |sorted| && DoomedUpTo(sorted, doomed0, |sorted|, now, limits)
    ensures Weighed(sorted, i, now, limits) <==> !(IsKept(sorted[i]) || sorted[i].id in doomed0)
  {
    assert sorted[i].id in doomed0 <==> DoomedBefore(sorted, i, |sorted|, now, limits);
  }

  lemma NothingWeighed(sorted: seq<Item>, now: int, limits: Limits)
    ensures Bytes(Counted(sorted[..0], now, limits)) == 0 && BytesPlan(sorted, 0, now, limits) == []
  {
  }

  /** The fourth pass: bytes. */
  method CondemnByBytes(sorted: seq<Item>, now: int, limits: Limits, doomed0: set<ItemId>)
    returns (evictions: seq<Eviction>)
    requires DistinctIds(sorted) && DoomedUpTo(sorted, doomed0, |sorted|, now, limits)
    ensures evictions == BytesPlan(sorted, |sorted|, now, limits)
  {
    evictions := [];
    var doomed := doomed0;
    var bytes := 0;
    hide Bytes, Counted, BytesPlan, DoomedUpTo, Weighed;
    NothingWeighed(sorted, now, limits);
    for i := 0 to |sorted|
      invariant bytes == Bytes(Counted(sorted[..i], now, limits)) && evictions == BytesPlan(sorted, i, now, limits)
      invariant forall j :: i <= j < |sorted| ==> (sorted[j].id in doomed <==> sorted[j].id in doomed0)
    {
      var it := sorted[i];
      BytesNext(sorted, i, now, limits);
      WeighedIffSpared(sorted, doomed0, i, now, limits);
      if !(IsKept(it) || it.id in doomed) {
        bytes := bytes + it.byteLength;
        if bytes > limits.maxBytes {
          doomed, evictions := doomed + {it.id}, evictions + [Eviction(it.id, RetentionBytes)];
        }
      }
    }
  }

  lemma PermutedIdsDistinct(items: seq<Item>, permuted: seq<Item>)
    requires DistinctIds(items) && multiset(items) == multiset(permuted)
    ensures DistinctIds(permuted)
    ensures forall it :: it in permuted <==> it in items
  {
    PermutationStaysDistinct(items, permuted);
    forall i, j | 0 <= i < j < |permuted|
      ensures permuted[i].id != permuted[j].id
    {
      assert permuted[i] in items && permuted[j] in items;
    }
  }

  /** All four limits, each item condemned once, by the first limit that bites. */
  method PlanEviction(items: seq<Item>, now: int, limits: Limits) returns (evictions: seq<Eviction>)
    requires DistinctIds(items)
    ensures evictions == Plan(Sort(items, NewestFirst()), now, limits)
  {
    var newestFirst := Sort(items, NewestFirst());
    SortPermutes(items, NewestFirst());
    PermutedIdsDistinct(items, newestFirst);
    var expired, doomed1 := CondemnExpired(newestFirst, now, limits);
    var aged, doomed2 := CondemnAged(newestFirst, now, limits, doomed1);
    var overCount, doomed3 := CondemnByCount(newestFirst, now, limits, doomed2);
    var overBytes := CondemnByBytes(newestFirst, now, limits, doomed3);
    assert newestFirst[..|newestFirst|] == newestFirst;
    evictions := expired + aged + overCount + overBytes;
  }

  // ---- the promises --------------------------------------------------------------------------

  lemma NewestFirstIsOrder()
    ensures TotalPreorder(NewestFirst())
  {
    forall a: Item, b: Item
      ensures NewestFirst()(a, b) || NewestFirst()(b, a)
    {
      LexTrichotomy(a.id, b.id);
    }
    forall a: Item, b: Item, c: Item | NewestFirst()(a, b) && NewestFirst()(b, c)
      ensures NewestFirst()(a, c)
    {
      LexNotLessTransitive(a.id, b.id, c.id);
    }
  }

  lemma LexNotLessTransitive(a: string, b: string, c: string)
    ensures !LexLess(a, b) && !LexLess(b, c) ==> !LexLess(a, c)
  {
    if !LexLess(a, b) && !LexLess(b, c) && LexLess(a, c) {
      LexTrichotomy(a, b);
      if a != b {
        LexTransitive(b, a, c);
      }
    }
  }

  lemma DistinctIdsAreStrict(items: seq<Item>)
    requires DistinctIds(items)
    ensures Strict(items, NewestFirst())
  {
    forall a, b | a in items && b in items && NewestFirst()(a, b) && NewestFirst()(b, a)
      ensures a == b
    {
      LexTrichotomy(a.id, b.id);
      var i :| 0 <= i < |items| && items[i] == a;
      var j :| 0 <= j < |items| && items[j] == b;
      assert i == j;
    }
  }

  /** The plan does not depend on the order the items are passed in. */
  lemma PlanIsCanonical(items: seq<Item>, permuted: seq<Item>, now: int, limits: Limits)
    requires DistinctIds(items) && multiset(items) == multiset(permuted)
    ensures Plan(Sort(items, NewestFirst()), now, limits) == Plan(Sort(permuted, NewestFirst()), now, limits)
  {
    SortedWhateverTheOrder(items, permuted);
  }

  lemma SortedWhateverTheOrder(items: seq<Item>, permuted: seq<Item>)
    requires DistinctIds(items) && multiset(items) == multiset(permuted)
    ensures Sort(items, NewestFirst()) == Sort(permuted, NewestFirst())
  {
    NewestFirstIsOrder();
    SortSorted(items, NewestFirst());
    SortSorted(permuted, NewestFirst());
    SortPermutes(items, NewestFirst());
    SortPermutes(permuted, NewestFirst());
    PermutedIdsDistinct(items, Sort(items, NewestFirst()));
    DistinctIdsAreStrict(Sort(items, NewestFirst()));
    SortedIsUnique(Sort(items, NewestFirst()), Sort(permuted, NewestFirst()), NewestFirst());
  }

  lemma {:induction false} WhereKeepsOrder(sorted: seq<Item>, c: Class, now: int, limits: Limits)
    requires DistinctIds(sorted) && SortedBy(sorted, NewestFirst())
    ensures DistinctIds(Where(sorted, c, now, limits))
    ensures SortedBy(Where(sorted, c, now, limits), NewestFirst())
  {
    if sorted != [] {
      var init, last := sorted[..|sorted| - 1], sorted[|sorted| - 1];
      WhereKeepsOrder(init, c, now, limits);
      var before := Where(init, c, now, limits);
      hide Where, InClass, LexLess, NewestFirst;
      forall i | 0 <= i < |before|
        ensures before[i].id != last.id && NewestFirst()(before[i], last)
      {
        assert before[i] in before;
        var j :| 0 <= j < |init| && init[j] == before[i];
        assert sorted[j] == before[i];
      }
      WhereLast(sorted, c, now, limits);
    }
  }

  lemma WhereLast(sorted: seq<Item>, c: Class, now: int, limits: Limits)
    requires sorted != []
    ensures var n := |sorted| - 1;
            Where(sorted, c, now, limits)
            == Where(sorted[..n], c, now, limits) + (if InClass(sorted[n], c, now, limits) then [sorted[n]] else [])
  {
  }

  /** The contenders that stay. */
  function Staying(sorted: seq<Item>, now: int, limits: Limits): seq<Item> {
    var counted := Counted(sorted, now, limits);
    counted[..BytesFit(counted, limits)]
  }

  lemma {:induction false} BytesFitIsLongest(items: seq<Item>, limits: Limits, k: nat)
    requires 0 < k <= |items|
    ensures k <= BytesFit(items, limits) <==> Bytes(items[..k]) <= limits.maxBytes
  {
    if k == |items| {
      assert items[..k] == items;
      if Bytes(items) <= limits.maxBytes {
        AllFit(items[..k - 1], limits);
      }
    } else {
      BytesFitIsLongest(items[..|items| - 1], limits, k);
      assert items[..|items| - 1][..k] == items[..k];
      if Bytes(items) <= limits.maxBytes {
        AllFit(items[..|items| - 1], limits);
      }
    }
  }

  /**
   * What stays is the longest newest-first prefix of the contenders that meets both limits: a
   * prefix of length k > 0 meets them exactly when k is within what stays.
   */
  lemma StayingIsLongestPrefix(sorted: seq<Item>, now: int, limits: Limits, k: nat)
    requires 0 < k <= |Where(sorted, IsContender, now, limits)|
    ensures var contenders, staying := Where(sorted, IsContender, now, limits), Staying(sorted, now, limits);
            && staying <= contenders
            && (k <= |staying| <==> k <= limits.maxItems && Bytes(contenders[..k]) <= limits.maxBytes)
  {
    var contenders := Where(sorted, IsContender, now, limits);
    var counted := Counted(sorted, now, limits);
    if k <= |counted| {
      assert counted[..k] == contenders[..k];
      BytesFitIsLongest(counted, limits, k);
    }
  }

  lemma InCondemned(items: seq<Item>, reason: DeleteReason, e: Eviction)
    ensures e in Condemned(items, reason) <==> e.reason == reason && exists it :: it in items && it.id == e.id
  {
    if e in Condemned(items, reason) {
      var i :| 0 <= i < |items| && Condemned(items, reason)[i] == e;
      assert items[i] in items;
    }
    if e.reason == reason && exists it :: it in items && it.id == e.id {
      var it :| it in items && it.id == e.id;
      var i :| 0 <= i < |items| && items[i] == it;
      assert Condemned(items, reason)[i] == e;
    }
  }

  /** Every item is condemned for exactly the reason its situation calls for, or stays. */
  function Verdict(it: Item, sorted: seq<Item>, now: int, limits: Limits): Option<DeleteReason> {
    if Expired(it, now) then Some(SecretTtl)
    else if IsKept(it) then None
    else if Aged(it, now, limits) then Some(RetentionAge)
    else if it !in Counted(sorted, now, limits) then Some(RetentionCount)
    else if it !in Staying(sorted, now, limits) then Some(RetentionBytes)
    else None
  }

  lemma SameIdSameItem(items: seq<Item>, a: Item, b: Item)
    requires DistinctIds(items) && a in items && b in items && a.id == b.id
    ensures a == b
  {
    var i :| 0 <= i < |items| && items[i] == a;
    var j :| 0 <= j < |items| && items[j] == b;
  }

  /** Two parts of a sequence share nothing, and each holds only what the whole holds. */
  lemma PartsOf(items: seq<Item>, k: nat, it: Item)
    requires DistinctIds(items) && k <= |items|
    ensures it in items[k..] <==> it in items && it !in items[..k]
    ensures forall x :: x in items[k..] || x in items[..k] ==> x in items
    ensures DistinctIds(items[..k])
  {
    if it in items {
      var i :| 0 <= i < |items| && items[i] == it;
      assert if i < k then items[..k][i] == it else items[k..][i - k] == it;
    }
  }

  lemma OnlyOneWithId(sorted: seq<Item>, it: Item, some: seq<Item>)
    requires DistinctIds(sorted) && it in sorted && forall x :: x in some ==> x in sorted
    ensures (exists x :: x in some && x.id == it.id) <==> it in some
  {
    forall x | x in some && x.id == it.id
      ensures x == it
    {
      SameIdSameItem(sorted, x, it);
    }
  }

  lemma CondemnedForReason(sorted: seq<Item>, some: seq<Item>, because: DeleteReason, it: Item, reason: DeleteReason)
    requires DistinctIds(sorted) && it in sorted && forall x :: x in some ==> x in sorted
    ensures Eviction(it.id, reason) in Condemned(some, because) <==> reason == because && it in some
  {
    InCondemned(some, because, Eviction(it.id, reason));
    OnlyOneWithId(sorted, it, some);
  }

  lemma ContendersSplit(sorted: seq<Item>, now: int, limits: Limits, it: Item)
    requires DistinctIds(sorted) && SortedBy(sorted, NewestFirst())
    ensures var contenders, counted := Where(sorted, IsContender, now, limits), Counted(sorted, now, limits);
            var beyond, heavy := contenders[|counted|..], counted[BytesFit(counted, limits)..];
            && (forall x :: x in beyond ==> x in sorted) && (forall x :: x in heavy ==> x in sorted)
            && (it in beyond <==> it in contenders && it !in counted)
            && (it in heavy <==> it in counted && it !in Staying(sorted, now, limits))
            && (it in counted ==> it in contenders)
  {
    var contenders, counted := Where(sorted, IsContender, now, limits), Counted(sorted, now, limits);
    WhereKeepsOrder(sorted, IsContender, now, limits);
    hide Where, BytesFit, SortedBy, CountFit;
    PartsOf(contenders, |counted|, it);
    PartsOf(counted, BytesFit(counted, limits), it);
  }

  /** An item is in the plan with a reason exactly when that is its verdict. */
  lemma PlanFollowsVerdicts(sorted: seq<Item>, now: int, limits: Limits, it: Item, reason: DeleteReason)
    requires DistinctIds(sorted) && SortedBy(sorted, NewestFirst()) && it in sorted
    ensures Eviction(it.id, reason) in Plan(sorted, now, limits) <==> Verdict(it, sorted, now, limits) == Some(reason)
  {
    var contenders, counted := Where(sorted, IsContender, now, limits), Counted(sorted, now, limits);
    ContendersSplit(sorted, now, limits, it);
    CondemnedForReason(sorted, Where(sorted, IsExpired, now, limits), SecretTtl, it, reason);
    CondemnedForReason(sorted, Where(sorted, IsAged, now, limits), RetentionAge, it, reason);
    CondemnedForReason(sorted, contenders[|counted|..], RetentionCount, it, reason);
    CondemnedForReason(sorted, counted[BytesFit(counted, limits)..], RetentionBytes, it, reason);
  }

  /** A kept item is only ever condemned for an expired secret. */
  lemma KeptOnlyDieAsSecrets(sorted: seq<Item>, now: int, limits: Limits, it: Item, reason: DeleteReason)
    requires DistinctIds(sorted) && SortedBy(sorted, NewestFirst())
    requires it in sorted && IsKept(it) && Eviction(it.id, reason) in Plan(sorted, now, limits)
    ensures reason == SecretTtl && Expired(it, now) && !IsSyncableDelete(reason)
  {
    PlanFollowsVerdicts(sorted, now, limits, it, reason);
  }

  /** No id is condemned twice. */
  lemma CondemnedOnce(sorted: seq<Item>, now: int, limits: Limits, i: nat, j: nat)
    requires DistinctIds(sorted) && SortedBy(sorted, NewestFirst())
    requires i < j < |Plan(sorted, now, limits)|
    ensures Plan(sorted, now, limits)[i].id != Plan(sorted, now, limits)[j].id
  {
    var chosen := Chosen(sorted, now, limits);
    PlanIsChosen(sorted, now, limits);
    ChosenDistinct(sorted, now, limits);
    assert chosen[i].id != chosen[j].id;
  }

  /** The condemned items, in plan order. */
  function Chosen(sorted: seq<Item>, now: int, limits: Limits): seq<Item> {
    var contenders, counted := Where(sorted, IsContender, now, limits), Counted(sorted, now, limits);
    Where(sorted, IsExpired, now, limits) + Where(sorted, IsAged, now, limits)
    + contenders[|counted|..] + counted[BytesFit(counted, limits)..]
  }

  lemma PlanIsChosen(sorted: seq<Item>, now: int, limits: Limits)
    ensures |Plan(sorted, now, limits)| == |Chosen(sorted, now, limits)|
    ensures forall i :: 0 <= i < |Plan(sorted, now, limits)| ==>
              Plan(sorted, now, limits)[i].id == Chosen(sorted, now, limits)[i].id
  {
  }

  /** Only ids of the given items are condemned. */
  lemma PlanIdsKnown(sorted: seq<Item>, now: int, limits: Limits, i: nat)
    requires i < |Plan(sorted, now, limits)|
    ensures exists it :: it in sorted && it.id == Plan(sorted, now, limits)[i].id
  {
    var chosen := Chosen(sorted, now, limits);
    var contenders, counted := Where(sorted, IsContender, now, limits), Counted(sorted, now, limits);
    PlanIsChosen(sorted, now, limits);
    assert forall x :: x in contenders[|counted|..] ==> x in contenders;
    assert forall x :: x in counted ==> x in contenders;
    assert forall x :: x in counted[BytesFit(counted, limits)..] ==> x in counted;
    assert chosen[i] in chosen;
    assert chosen[i] in sorted;
  }

  lemma JoinDistinct(a: seq<Item>, b: seq<Item>, within: seq<Item>)
    requires DistinctIds(a) && DistinctIds(b) && DistinctIds(within)
    requires forall x :: x in a ==> x in within && x !in b
    requires forall x :: x in b ==> x in within
    ensures DistinctIds(a + b)
  {
    forall x, y | x in a && y in b
      ensures x.id != y.id
    {
      if x.id == y.id {
        SameIdSameItem(within, x, y);
      }
    }
  }

  lemma ChosenDistinct(sorted: seq<Item>, now: int, limits: Limits)
    requires DistinctIds(sorted) && SortedBy(sorted, NewestFirst())
    ensures DistinctIds(Chosen(sorted, now, limits))
  {
    hide SortedBy, NewestFirst, BytesFit;
    var expired, aged := Where(sorted, IsExpired, now, limits), Where(sorted, IsAged, now, limits);
    var contenders, counted := Where(sorted, IsContender, now, limits), Counted(sorted, now, limits);
    var beyond, heavy := contenders[|counted|..], counted[BytesFit(counted, limits)..];
    WhereKeepsOrder(sorted, IsExpired, now, limits);
    WhereKeepsOrder(sorted, IsAged, now, limits);
    WhereKeepsOrder(sorted, IsContender, now, limits);
    forall x
      ensures x in beyond || x in heavy ==> x in contenders
      ensures x in beyond ==> x !in heavy
    {
      ContendersSplit(sorted, now, limits, x);
    }
    JoinDistinct(expired, aged, sorted);
    JoinDistinct(expired + aged, beyond, sorted);
    JoinDistinct(expired + aged + beyond, heavy, sorted);
  }

  lemma SameMembersSameOrder(xs: seq<Item>, ys: seq<Item>)
    requires DistinctIds(xs) && DistinctIds(ys) && SortedBy(xs, NewestFirst()) && SortedBy(ys, NewestFirst())
    requires forall it :: it in xs <==> it in ys
    ensures xs == ys
  {
    forall it
      ensures multiset(xs)[it] == multiset(ys)[it]
    {
      CountsOnce(xs, it);
      CountsOnce(ys, it);
    }
    assert multiset(xs) == multiset(ys);
    DistinctIdsAreStrict(xs);
    SortedIsUnique(xs, ys, NewestFirst());
  }

  lemma {:induction false} WhereEmpty(items: seq<Item>, c: Class, now: int, limits: Limits)
    requires forall it :: it in items ==> !InClass(it, c, now, limits)
    ensures Where(items, c, now, limits) == []
  {
    if items != [] {
      assert items[|items| - 1] in items;
      assert forall it :: it in items[..|items| - 1] ==> it in items;
      WhereEmpty(items[..|items| - 1], c, now, limits);
    }
  }

  /** Planning again over what survived, in whatever order it comes, condemns nothing. */
  lemma ReplanningCondemnsNothing(items: seq<Item>, survivors: seq<Item>, now: int, limits: Limits)
    requires DistinctIds(items) && DistinctIds(survivors)
    requires var plan := Plan(Sort(items, NewestFirst()), now, limits);
             forall it :: it in survivors <==> it in items && it.id !in Ids(plan)
    ensures Plan(Sort(survivors, NewestFirst()), now, limits) == []
  {
    var sorted, again := Sort(items, NewestFirst()), Sort(survivors, NewestFirst());
    SortedAndDistinct(items);
    SortedAndDistinct(survivors);
    forall it
      ensures it in again <==> it in sorted && Verdict(it, sorted, now, limits) == None
    {
      if it in sorted {
        VerdictDecides(sorted, now, limits, it);
      }
    }
    AcquittedStay(sorted, again, now, limits);
  }

  lemma AcquittedStay(sorted: seq<Item>, again: seq<Item>, now: int, limits: Limits)
    requires DistinctIds(sorted) && SortedBy(sorted, NewestFirst())
    requires DistinctIds(again) && SortedBy(again, NewestFirst())
    requires forall it :: it in again <==> it in sorted && Verdict(it, sorted, now, limits) == None
    ensures Plan(again, now, limits) == []
  {
    WhereEmpty(again, IsExpired, now, limits);
    WhereEmpty(again, IsAged, now, limits);
    StayingAreTheContendersLeft(sorted, again, now, limits);
    var left := Where(again, IsContender, now, limits);
    assert left[..|left|] == left;
  }

  lemma SortedAndDistinct(items: seq<Item>)
    requires DistinctIds(items)
    ensures var sorted := Sort(items, NewestFirst());
            DistinctIds(sorted) && SortedBy(sorted, NewestFirst()) && forall it :: it in sorted <==> it in items
  {
    NewestFirstIsOrder();
    SortSorted(items, NewestFirst());
    SortPermutes(items, NewestFirst());
    PermutedIdsDistinct(items, Sort(items, NewestFirst()));
  }

  lemma VerdictDecides(sorted: seq<Item>, now: int, limits: Limits, it: Item)
    requires DistinctIds(sorted) && SortedBy(sorted, NewestFirst()) && it in sorted
    ensures it.id in Ids(Plan(sorted, now, limits)) <==> Verdict(it, sorted, now, limits) != None
  {
    var plan, verdict := Plan(sorted, now, limits), Verdict(it, sorted, now, limits);
    if it.id in Ids(plan) {
      var i :| 0 <= i < |plan| && plan[i].id == it.id;
      PlanFollowsVerdicts(sorted, now, limits, it, plan[i].reason);
    }
    if verdict != None {
      PlanFollowsVerdicts(sorted, now, limits, it, verdict.value);
      var i :| 0 <= i < |plan| && plan[i] == Eviction(it.id, verdict.value);
      assert plan[i].id == it.id;
    }
  }

  lemma StayingAreTheContendersLeft(sorted: seq<Item>, again: seq<Item>, now: int, limits: Limits)
    requires DistinctIds(sorted) && SortedBy(sorted, NewestFirst())
    requires DistinctIds(again) && SortedBy(again, NewestFirst())
    requires forall it :: it in again <==> it in sorted && Verdict(it, sorted, now, limits) == None
    ensures Where(again, IsContender, now, limits) == Staying(sorted, now, limits)
    ensures var left := Where(again, IsContender, now, limits);
            CountFit(|left|, limits) == |left| && BytesFit(left, limits) == |left|
  {
    var left, staying := Where(again, IsContender, now, limits), Staying(sorted, now, limits);
    WhereKeepsOrder(again, IsContender, now, limits);
    StayingInOrder(sorted, now, limits);
    forall it
      ensures it in left <==> it in staying
    {
      StayingMember(sorted, now, limits, it);
    }
    SameMembersSameOrder(left, staying);
    StayingFits(sorted, now, limits);
  }

  lemma StayingInOrder(sorted: seq<Item>, now: int, limits: Limits)
    requires DistinctIds(sorted) && SortedBy(sorted, NewestFirst())
    ensures DistinctIds(Staying(sorted, now, limits)) && SortedBy(Staying(sorted, now, limits), NewestFirst())
  {
    WhereKeepsOrder(sorted, IsContender, now, limits);
  }

  lemma StayingMember(sorted: seq<Item>, now: int, limits: Limits, it: Item)
    ensures it in Staying(sorted, now, limits)
       <==> it in sorted && Contender(it, now, limits) && Verdict(it, sorted, now, limits) == None
  {
    var contenders, counted := Where(sorted, IsContender, now, limits), Counted(sorted, now, limits);
    assert it in Staying(sorted, now, limits) ==> it in counted;
    assert it in counted ==> it in contenders;
  }

  lemma StayingFits(sorted: seq<Item>, now: int, limits: Limits)
    ensures var staying := Staying(sorted, now, limits);
            CountFit(|staying|, limits) == |staying| && BytesFit(staying, limits) == |staying|
  {
    var staying, counted := Staying(sorted, now, limits), Counted(sorted, now, limits);
    if staying != [] {
      BytesFitIsLongest(counted, limits, |staying|);
      AllFit(staying, limits);
    }
  }
}
