/** The bounded search index: its sort cache, its overflow rule, and the literal prefilter. */
module SearchIndex {
  import opened Domain
  import opened Sorting

  const SEARCH_INDEX_DEFAULT := 500
  const SEARCH_INDEX_HARD_CAP := 2_000

  datatype SearchEntry = SearchEntry(
    id: ItemId, preview: string, pinned: bool, tagged: bool, updatedAt: int, ord: int)

  /** Newest first, the later record first among equals. */
  function ByRecency(): (SearchEntry, SearchEntry) -> bool {
    (a: SearchEntry, b: SearchEntry) => a.updatedAt > b.updatedAt || (a.updatedAt == b.updatedAt && a.ord >= b.ord)
  }

  function OldestFirst(): (SearchEntry, SearchEntry) -> bool {
    (a: SearchEntry, b: SearchEntry) => a.updatedAt < b.updatedAt || (a.updatedAt == b.updatedAt && a.ord <= b.ord)
  }

  lemma RecencyIsOrder()
    ensures TotalPreorder(ByRecency()) && TotalPreorder(OldestFirst())
    ensures forall a, b :: OldestFirst()(a, b) <==> ByRecency()(b, a)
  {
  }

  /** Never dropped by overflow: pinned, or filed in a tab. */
  predicate Exempt(e: SearchEntry) {
    e.pinned || e.tagged
  }

  ghost predicate DistinctEntries(entries: seq<SearchEntry>) {
    forall i, j :: 0 <= i < j < |entries| ==> entries[i].id != entries[j].id
  }

  /** A JavaScript map: an existing key keeps its place, a new one goes last. */
  function Put(entries: seq<SearchEntry>, e: SearchEntry): seq<SearchEntry> {
    if entries == [] then [e]
    else if entries[0].id == e.id then [e] + entries[1..]
    else [entries[0]] + Put(entries[1..], e)
  }

  lemma {:induction false} PutMembers(entries: seq<SearchEntry>, e: SearchEntry)
    requires DistinctEntries(entries)
    ensures DistinctEntries(Put(entries, e))
    ensures forall x :: x in Put(entries, e) <==> x == e || (x in entries && x.id != e.id)
  {
    if entries != [] {
      var rest := entries[1..];
      assert entries == [entries[0]] + rest;
      PutMembers(rest, e);
      assert forall x :: x in rest ==> x.id != entries[0].id;
    }
  }

  function Excluding(entries: seq<SearchEntry>, ids: set<ItemId>): seq<SearchEntry> {
    if entries == [] then []
    else
      var init, last := entries[..|entries| - 1], entries[|entries| - 1];
      Excluding(init, ids) + (if last.id in ids then [] else [last])
  }

  lemma {:induction false} ExcludingMembers(entries: seq<SearchEntry>, ids: set<ItemId>)
    ensures forall x :: x in Excluding(entries, ids) <==> x in entries && x.id !in ids
  {
    if entries != [] {
      ExcludingMembers(entries[..|entries| - 1], ids);
      assert entries == entries[..|entries| - 1] + [entries[|entries| - 1]];
    }
  }

  lemma {:induction false} ExcludingDistinct(entries: seq<SearchEntry>, ids: set<ItemId>)
    requires DistinctEntries(entries)
    ensures DistinctEntries(Excluding(entries, ids))
  {
    if entries != [] {
      var init, last := entries[..|entries| - 1], entries[|entries| - 1];
      ExcludingDistinct(init, ids);
      ExcludingMembers(init, ids);
      assert forall x :: x in init ==> x.id != last.id;
      assert forall k :: 0 <= k < |Excluding(init, ids)| ==> Excluding(init, ids)[k] in init;
    }
  }

  function ExemptIds(entries: seq<SearchEntry>): set<ItemId> {
    set i | 0 <= i < |entries| && Exempt(entries[i]) :: entries[i].id
  }

  function Droppable(entries: seq<SearchEntry>): seq<SearchEntry> {
    Excluding(entries, ExemptIds(entries))
  }

  lemma DroppableMembers(entries: seq<SearchEntry>)
    requires DistinctEntries(entries)
    ensures DistinctEntries(Droppable(entries))
    ensures forall x :: x in Droppable(entries) <==> x in entries && !Exempt(x)
  {
    ExcludingDistinct(entries, ExemptIds(entries));
    ExcludingMembers(entries, ExemptIds(entries));
    forall x | x in entries
      ensures x.id in ExemptIds(entries) <==> Exempt(x)
    {
      var i :| 0 <= i < |entries| && entries[i] == x;
    }
  }

  lemma {:induction false} ExcludingOne(entries: seq<SearchEntry>, ids: set<ItemId>, id: ItemId)
    ensures Excluding(Excluding(entries, ids), {id}) == Excluding(entries, ids + {id})
  {
    if entries != [] {
      var init, last := entries[..|entries| - 1], entries[|entries| - 1];
      ExcludingOne(init, ids, id);
      if last.id !in ids {
        assert (Excluding(init, ids) + [last])[..|Excluding(init, ids)|] == Excluding(init, ids);
      } else {
        assert Excluding(init, ids) + [] == Excluding(init, ids);
      }
    }
  }

  lemma {:induction false} ExcludingAbsent(entries: seq<SearchEntry>, id: ItemId)
    requires forall i :: 0 <= i < |entries| ==> entries[i].id != id
    ensures Excluding(entries, {id}) == entries
  {
    if entries != [] {
      var init, last := entries[..|entries| - 1], entries[|entries| - 1];
      ExcludingAbsent(init, id);
      assert last.id !in {id} && entries == init + [last];
    }
  }

  lemma {:induction false} ExcludingPresentShrinks(entries: seq<SearchEntry>, e: SearchEntry)
    requires DistinctEntries(entries) && e in entries
    ensures |Excluding(entries, {e.id})| == |entries| - 1
  {
    var init, last := entries[..|entries| - 1], entries[|entries| - 1];
    assert entries == init + [last];
    if last.id == e.id {
      ExcludingAbsent(init, e.id);
    } else {
      ExcludingPresentShrinks(init, e);
    }
  }

  function IdSet(entries: seq<SearchEntry>): set<ItemId> {
    set i | 0 <= i < |entries| :: entries[i].id
  }

  /** What overflow may do to `before`: drop the oldest of what is droppable, and no more than needed. */
  ghost predicate FairlyTrimmed(before: seq<SearchEntry>, after: seq<SearchEntry>, capacity: nat) {
    && DistinctEntries(after)
    && (forall x :: x in after ==> x in before)
    && (forall x :: x in before && Exempt(x) ==> x in after)
    && (forall x, y :: x in before && x !in after && y in after && !Exempt(y) ==> ByRecency()(y, x))
    && (|after| <= capacity || forall x :: x in after ==> Exempt(x))
    && (if |before| <= capacity then after == before else |after| >= capacity)
  }

  class SearchIndex {
    const capacity: nat
    var entries: seq<SearchEntry>
    var ordered: seq<SearchEntry>
    var dirty: bool

    /** The sort cache is trusted only while it is clean. */
    ghost predicate Valid()
      reads this
    {
      && capacity >= 1
      && DistinctEntries(entries)
      && (!dirty ==> ordered == Sort(entries, ByRecency()))
    }

    constructor (limit: Option<nat>)
      requires limit.Some? ==> limit.value >= 1
      ensures Valid() && entries == []
      ensures capacity == (var asked := if limit.Some? then limit.value else SEARCH_INDEX_DEFAULT;
                           if asked < SEARCH_INDEX_HARD_CAP then asked else SEARCH_INDEX_HARD_CAP)
    {
      var asked := if limit.Some? then limit.value else SEARCH_INDEX_DEFAULT;
      capacity := if asked < SEARCH_INDEX_HARD_CAP then asked else SEARCH_INDEX_HARD_CAP;
      entries, ordered, dirty := [], [], true;
    }

    method Add(entry: SearchEntry)
      requires Valid()
      modifies this
      ensures Valid()
      ensures FairlyTrimmed(Put(old(entries), entry), entries, capacity)
      ensures forall x :: x in entries ==> x == entry || (x in old(entries) && x.id != entry.id)
    {
      PutMembers(entries, entry);
      entries := Put(entries, entry);
      dirty := true;
      EvictOverflow();
    }

    method EvictOverflow()
      requires Valid() && dirty
      modifies this
      ensures Valid()
      ensures FairlyTrimmed(old(entries), entries, capacity)
    {
      if |entries| <= capacity {
        return;
      }
      ghost var before := entries;
      ExcludingNothing(before);
      var oldest := Sort(Droppable(entries), OldestFirst());
      OldestSorted(entries);
      var over := |entries| - capacity;
      var k := 0;
      assert IdSet(oldest[..0]) == {};
      while k < |oldest| && over > 0
        invariant 0 <= k <= |oldest| && over >= 0 && dirty
        invariant entries == Excluding(before, IdSet(oldest[..k])) && |entries| == |before| - k
        invariant over == |entries| - capacity
      {
        DropNext(before, oldest, k);
        entries := Excluding(entries, {oldest[k].id});
        over := over - 1;
        k := k + 1;
      }
      dirty := true;
      TrimIsFair(before, oldest, k, capacity);
    }

    method Remove(id: ItemId) returns (had: bool)
      requires Valid()
      modifies this
      ensures Valid() && entries == Excluding(old(entries), {id})
      ensures had <==> exists x :: x in old(entries) && x.id == id
    {
      had := exists i :: 0 <= i < |entries| && entries[i].id == id;
      ExcludingDistinct(entries, {id});
      if had {
        entries := Excluding(entries, {id});
        dirty := true;
      } else {
        ExcludingAbsent(entries, id);
      }
    }

    method Clear()
      requires Valid()
      modifies this
      ensures Valid() && entries == []
    {
      entries, ordered, dirty := [], [], false;
    }

    /** Sorts only when something changed since the last time. */
    method Rebuild()
      requires Valid()
      modifies this`ordered, this`dirty
      ensures Valid() && !dirty && ordered == Sort(entries, ByRecency())
      ensures SortedBy(ordered, ByRecency()) && multiset(ordered) == multiset(entries)
    {
      if dirty {
        ordered := Sort(entries, ByRecency());
        dirty := false;
      }
      RecencyIsOrder();
      SortSorted(entries, ByRecency());
      SortPermutes(entries, ByRecency());
    }

    /** The rows that survive the exclusion and the literal scan, newest first. */
    method Candidates(fold: char -> char, tokens: seq<string>, excluded: Option<string>)
      returns (candidates: seq<nat>)
      requires Valid()
      modifies this`ordered, this`dirty
      ensures Valid() && ordered == Sort(entries, ByRecency())
      ensures IsFilter(candidates, fold, ordered, tokens, excluded)
    {
      Rebuild();
      candidates := PassingRows(fold, ordered, tokens, excluded);
    }
  }

  /** Exactly the rows that pass, in row order. */
  ghost predicate IsFilter(
      candidates: seq<nat>, fold: char -> char, rows: seq<SearchEntry>, tokens: seq<string>, excluded: Option<string>)
  {
    && (forall i, j :: 0 <= i < j < |candidates| ==> candidates[i] < candidates[j])
    && (forall i :: i in candidates ==> i < |rows|)
    && (forall i :: 0 <= i < |rows| ==> (i in candidates <==> Passes(fold, rows[i].preview, tokens, excluded)))
  }

  method PassingRows(fold: char -> char, rows: seq<SearchEntry>, tokens: seq<string>, excluded: Option<string>)
    returns (candidates: seq<nat>)
    ensures IsFilter(candidates, fold, rows, tokens, excluded)
  {
    candidates := [];
    for i := 0 to |rows|
      invariant IsFilter(candidates, fold, rows[..i], tokens, excluded)
    {
      var passes := RowPasses(fold, rows[i].preview, tokens, excluded);
      FilterNext(candidates, fold, rows, tokens, excluded, i);
      candidates := if passes then candidates + [i] else candidates;
    }
    assert rows[..|rows|] == rows;
  }

  lemma FilterNext(
      candidates: seq<nat>, fold: char -> char, rows: seq<SearchEntry>, tokens: seq<string>, excluded: Option<string>,
      i: nat)
    requires i < |rows| && IsFilter(candidates, fold, rows[..i], tokens, excluded)
    ensures IsFilter(if Passes(fold, rows[i].preview, tokens, excluded) then candidates + [i] else candidates,
                     fold, rows[..i + 1], tokens, excluded)
  {
    hide Passes;
    var passes := Passes(fold, rows[i].preview, tokens, excluded);
    var next := if passes then candidates + [i] else candidates;
    assert forall j :: 0 <= j < |candidates| ==> candidates[j] in candidates;
    assert forall j :: j in next <==> j in candidates || (passes && j == i);
    forall j | 0 <= j < i + 1
      ensures j in next <==> Passes(fold, rows[..i + 1][j].preview, tokens, excluded)
    {
      assert rows[..i + 1][j] == rows[j] && (j < i ==> rows[..i][j] == rows[j]);
    }
  }

  method RowPasses(fold: char -> char, text: string, tokens: seq<string>, excluded: Option<string>)
    returns (passes: bool)
    ensures passes <==> Passes(fold, text, tokens, excluded)
  {
    if excluded.Some? {
      var hit := FindFrom(fold, text, excluded.value, 0);
      if hit.Some? {
        return false;
      }
    }
    passes := ScanTokens(fold, text, tokens);
  }

  lemma OldestSorted(entries: seq<SearchEntry>)
    requires DistinctEntries(entries)
    ensures var oldest := Sort(Droppable(entries), OldestFirst());
            && SortedBy(oldest, OldestFirst())
            && DistinctEntries(oldest)
            && (forall x :: x in oldest <==> x in entries && !Exempt(x))
  {
    var some := Droppable(entries);
    DroppableMembers(entries);
    RecencyIsOrder();
    SortSorted(some, OldestFirst());
    SortPermutes(some, OldestFirst());
    SameMultisetSameEntries(some, Sort(some, OldestFirst()));
  }

  lemma SameMultisetSameEntries(xs: seq<SearchEntry>, ys: seq<SearchEntry>)
    requires DistinctEntries(xs) && multiset(xs) == multiset(ys)
    ensures DistinctEntries(ys) && forall x :: x in xs <==> x in ys
  {
    PermutationStaysDistinct(xs, ys);
    forall i, j | 0 <= i < j < |ys|
      ensures ys[i].id != ys[j].id
    {
      assert ys[i] in xs && ys[j] in xs;
    }
  }

  lemma IdSetNext(entries: seq<SearchEntry>, k: nat)
    requires k < |entries|
    ensures IdSet(entries[..k + 1]) == IdSet(entries[..k]) + {entries[k].id}
  {
    assert forall i :: 0 <= i < k ==> entries[..k + 1][i] == entries[..k][i];
    assert entries[..k + 1][k] == entries[k];
  }

  lemma {:induction false} ExcludingNothing(entries: seq<SearchEntry>)
    ensures Excluding(entries, {}) == entries
  {
    if entries != [] {
      ExcludingNothing(entries[..|entries| - 1]);
    }
  }

  /** One turn of the overflow loop removes one entry that is still there. */
  lemma DropNext(before: seq<SearchEntry>, oldest: seq<SearchEntry>, k: nat)
    requires DistinctEntries(before) && DistinctEntries(oldest)
    requires k < |oldest| && oldest[k] in before
    ensures var entries := Excluding(before, IdSet(oldest[..k]));
            && Excluding(entries, {oldest[k].id}) == Excluding(before, IdSet(oldest[..k + 1]))
            && |Excluding(entries, {oldest[k].id})| == |entries| - 1
  {
    var ids := IdSet(oldest[..k]);
    ExcludingMembers(before, ids);
    ExcludingDistinct(before, ids);
    ExcludingPresentShrinks(Excluding(before, ids), oldest[k]);
    ExcludingOne(before, ids, oldest[k].id);
    IdSetNext(oldest, k);
  }

  lemma TrimIsFair(before: seq<SearchEntry>, oldest: seq<SearchEntry>, k: nat, capacity: nat)
    requires DistinctEntries(before) && |before| > capacity && k <= |oldest|
    requires oldest == Sort(Droppable(before), OldestFirst())
    requires |Excluding(before, IdSet(oldest[..k]))| == |before| - k
    requires |before| - k >= capacity && (k == |oldest| || |before| - k == capacity)
    ensures FairlyTrimmed(before, Excluding(before, IdSet(oldest[..k])), capacity)
  {
    OldestSorted(before);
    var after := Excluding(before, IdSet(oldest[..k]));
    ExcludingDistinct(before, IdSet(oldest[..k]));
    AfterTrim(before, oldest, k);
    TrimDropsOldest(before, oldest, k);
    if k == |oldest| {
      assert oldest[..k] == oldest;
    }
  }

  lemma AfterTrim(before: seq<SearchEntry>, oldest: seq<SearchEntry>, k: nat)
    requires DistinctEntries(before) && k <= |oldest| && forall x :: x in oldest ==> x in before
    ensures forall x :: x in Excluding(before, IdSet(oldest[..k])) <==> x in before && x !in oldest[..k]
  {
    ExcludingMembers(before, IdSet(oldest[..k]));
    forall x | x in before
      ensures x.id in IdSet(oldest[..k]) <==> x in oldest[..k]
    {
      if x.id in IdSet(oldest[..k]) {
        var i :| 0 <= i < k && oldest[..k][i].id == x.id;
        assert oldest[i] in before;
      }
    }
  }

  lemma TrimDropsOldest(before: seq<SearchEntry>, oldest: seq<SearchEntry>, k: nat)
    requires DistinctEntries(before) && k <= |oldest| && SortedBy(oldest, OldestFirst())
    requires forall x :: x in oldest <==> x in before && !Exempt(x)
    ensures var after := Excluding(before, IdSet(oldest[..k]));
            forall x, y :: x in before && x !in after && y in after && !Exempt(y) ==> ByRecency()(y, x)
  {
    AfterTrim(before, oldest, k);
    var after := Excluding(before, IdSet(oldest[..k]));
    forall x, y | x in before && x !in after && y in after && !Exempt(y)
      ensures ByRecency()(y, x)
    {
      var i :| 0 <= i < k && oldest[..k][i] == x;
      var j :| 0 <= j < |oldest| && oldest[j] == y;
      assert y !in oldest[..k];
      assert forall m :: 0 <= m < k ==> oldest[..k][m] == oldest[m];
      assert OldestFirst()(oldest[i], oldest[j]);
    }
  }

  // ---- the literal prefilter -----------------------------------------------------------------

  /** The token stands at p, comparing letters after case folding. */
  predicate MatchAt(fold: char -> char, text: string, token: string, p: nat) {
    p + |token| <= |text| && forall i :: 0 <= i < |token| ==> fold(text[p + i]) == fold(token[i])
  }

  /** One place per token, in order, not overlapping. */
  ghost predicate IsEmbedding(fold: char -> char, text: string, tokens: seq<string>, ps: seq<nat>, from: nat) {
    && |ps| == |tokens|
    && (forall k :: 0 <= k < |ps| ==> ps[k] >= from && MatchAt(fold, text, tokens[k], ps[k]))
    && (forall j, k :: 0 <= j < k < |ps| ==> ps[j] + |tokens[j]| <= ps[k])
  }

  ghost predicate Embeds(fold: char -> char, text: string, tokens: seq<string>, from: nat) {
    exists ps :: IsEmbedding(fold, text, tokens, ps, from)
  }

  ghost predicate Occurs(fold: char -> char, text: string, token: string) {
    exists p :: MatchAt(fold, text, token, p)
  }

  /** What the query keeps of a row before ranking. */
  ghost predicate Passes(fold: char -> char, text: string, tokens: seq<string>, excluded: Option<string>) {
    !(excluded.Some? && Occurs(fold, text, excluded.value)) && Embeds(fold, text, tokens, 0)
  }

  /** The leftmost place at or after `from`. */
  method FindFrom(fold: char -> char, text: string, token: string, from: nat) returns (p: Option<nat>)
    ensures p.None? ==> forall q :: q >= from ==> !MatchAt(fold, text, token, q)
    ensures p.Some? ==> p.value >= from && MatchAt(fold, text, token, p.value)
                        && forall q :: from <= q < p.value ==> !MatchAt(fold, text, token, q)
  {
    var i := from;
    while i + |token| <= |text|
      invariant i >= from
      invariant forall q :: from <= q < i ==> !MatchAt(fold, text, token, q)
    {
      if MatchAt(fold, text, token, i) {
        return Some(i);
      }
      i := i + 1;
    }
    return None;
  }

  lemma EmbeddingHead(fold: char -> char, text: string, tokens: seq<string>, ps: seq<nat>, from: nat, p: nat)
    requires tokens != [] && IsEmbedding(fold, text, tokens, ps, from)
    requires p <= ps[0]
    ensures IsEmbedding(fold, text, tokens[1..], ps[1..], p + |tokens[0]|)
  {
    forall k | 0 <= k < |ps[1..]|
      ensures ps[1..][k] >= p + |tokens[0]|
    {
      assert ps[0] + |tokens[0]| <= ps[k + 1];
    }
  }

  lemma EmbeddingCons(fold: char -> char, text: string, tokens: seq<string>, ps: seq<nat>, from: nat, p: nat)
    requires tokens != [] && p >= from && MatchAt(fold, text, tokens[0], p)
    requires IsEmbedding(fold, text, tokens[1..], ps, p + |tokens[0]|)
    ensures IsEmbedding(fold, text, tokens, [p] + ps, from)
  {
    var all := [p] + ps;
    forall k | 0 <= k < |all|
      ensures all[k] >= from && MatchAt(fold, text, tokens[k], all[k])
    {
      if k > 0 {
        assert tokens[k] == tokens[1..][k - 1];
      }
    }
    forall j, k | 0 <= j < k < |all|
      ensures all[j] + |tokens[j]| <= all[k]
    {
      if j > 0 {
        assert ps[j - 1] + |tokens[1..][j - 1]| <= ps[k - 1];
      }
    }
  }

  /**
   * Takes each token at its leftmost place after the previous one. Greedy though it is, it accepts
   * a row exactly when some embedding of all tokens exists.
   */
  method ScanTokens(fold: char -> char, text: string, tokens: seq<string>) returns (accepted: bool)
    ensures accepted <==> Embeds(fold, text, tokens, 0)
  {
    var cursor: nat := 0;
    var k := 0;
    assert tokens[0..] == tokens;
    while k < |tokens|
      invariant 0 <= k <= |tokens|
      invariant Embeds(fold, text, tokens, 0) <==> Embeds(fold, text, tokens[k..], cursor)
    {
      var rest := tokens[k..];
      var hit := FindFrom(fold, text, rest[0], cursor);
      if hit.None? {
        NoHitNoEmbedding(fold, text, rest, cursor);
        return false;
      }
      GreedyStep(fold, text, rest, cursor, hit.value);
      assert tokens[k + 1..] == rest[1..];
      cursor := hit.value + |tokens[k]|;
      k := k + 1;
    }
    assert IsEmbedding(fold, text, tokens[k..], [], cursor);
    return true;
  }

  lemma GreedyStep(fold: char -> char, text: string, tokens: seq<string>, from: nat, p: nat)
    requires tokens != [] && p >= from && MatchAt(fold, text, tokens[0], p)
    requires forall q :: from <= q < p ==> !MatchAt(fold, text, tokens[0], q)
    ensures Embeds(fold, text, tokens, from) <==> Embeds(fold, text, tokens[1..], p + |tokens[0]|)
  {
    if Embeds(fold, text, tokens, from) {
      var ps :| IsEmbedding(fold, text, tokens, ps, from);
      assert MatchAt(fold, text, tokens[0], ps[0]);
      EmbeddingHead(fold, text, tokens, ps, from, p);
    }
    var next := p + |tokens[0]|;
    if Embeds(fold, text, tokens[1..], next) {
      var ps :| IsEmbedding(fold, text, tokens[1..], ps, next);
      EmbeddingCons(fold, text, tokens, ps, from, p);
    }
  }

  lemma NoHitNoEmbedding(fold: char -> char, text: string, tokens: seq<string>, from: nat)
    requires tokens != [] && forall q :: q >= from ==> !MatchAt(fold, text, tokens[0], q)
    ensures !Embeds(fold, text, tokens, from)
  {
    forall ps: seq<nat> | |ps| == |tokens|
      ensures !IsEmbedding(fold, text, tokens, ps, from)
    {
      assert ps[0] >= from ==> !MatchAt(fold, text, tokens[0], ps[0]);
    }
  }
}
