/**
 * The state of the change assembler as a value: which streams feed which slots, which changes still
 * wait, what was handed on, and the invariant that every step keeps.
 */
module ChangeAssembly {
  import opened Domain
  import opened Reassembler

  datatype ChangedWire = ChangedWire(changeCount: int, reps: seq<WireRep>)

  datatype Slot = Slot(mime: string, resolved: Option<ResolvedRep>, dropped: Option<ErrorCode>)

  /** Changes are told apart by the order in which they arrived. */
  datatype PendingChange = PendingChange(slots: seq<Slot>, wire: ChangedWire, outstanding: int)

  datatype Place = Place(change: nat, slot: nat)

  datatype DroppedRep = DroppedRep(mime: string, code: ErrorCode)
  datatype Payload = Payload(changeCount: int, reps: seq<ResolvedRep>, droppedReps: seq<DroppedRep>)

  /** A payload handed on, with the change and the slots it was made from. */
  datatype Emission = Emission(change: nat, wire: ChangedWire, slots: seq<Slot>)

  datatype Assembly = Assembly(
    owner: map<RepId, Place>, pending: map<nat, PendingChange>, emitted: seq<Emission>,
    wires: seq<ChangedWire>)  // every change so far, in order of arrival

  // ---- payloads ------------------------------------------------------------------------------

  function ResolvedOf(slots: seq<Slot>): seq<ResolvedRep> {
    if slots == [] then []
    else
      var s := slots[|slots| - 1];
      ResolvedOf(slots[..|slots| - 1]) + (if s.resolved.Some? then [s.resolved.value] else [])
  }

  function DroppedOf(slots: seq<Slot>): seq<DroppedRep> {
    if slots == [] then []
    else
      var s := slots[|slots| - 1];
      DroppedOf(slots[..|slots| - 1])
      + (if s.resolved.None? && s.dropped.Some? then [DroppedRep(s.mime, s.dropped.value)] else [])
  }

  function PayloadOf(e: Emission): Payload {
    Payload(e.wire.changeCount, ResolvedOf(e.slots), DroppedOf(e.slots))
  }

  /** Inline, or announced as a stream: what the wire schema demands of every representation. */
  predicate Declared(rep: WireRep) {
    rep.inline.Some? || rep.repId.Some?
  }

  predicate IsChunked(rep: WireRep) {
    rep.inline.None? && rep.repId.Some?
  }

  predicate Settled(s: Slot) {
    s.resolved.Some? != s.dropped.Some?
  }

  predicate Unsettled(s: Slot) {
    s.resolved.None? && s.dropped.None?
  }

  /** A slot holds what its wire representation promised, or a reason, or nothing yet. */
  predicate SlotFits(s: Slot, rep: WireRep) {
    && s.mime == rep.mime
    && (Settled(s) || Unsettled(s))
    && (s.resolved.Some? ==>
          var r := s.resolved.value;
          && r.mime == rep.mime && r.uti == rep.uti
          && |r.bytes| == rep.byteLength == r.byteLength && HashOf(r.bytes) == rep.sha256 == r.sha256)
    && (Settled(s) ==> Declared(rep))
  }

  ghost predicate SlotsFit(slots: seq<Slot>, wire: ChangedWire) {
    |slots| == |wire.reps| && forall i :: 0 <= i < |slots| ==> SlotFits(slots[i], wire.reps[i])
  }

  /** Every declared representation is accounted for, one way or the other. */
  ghost predicate Complete(e: Emission) {
    && SlotsFit(e.slots, e.wire)
    && forall i :: 0 <= i < |e.slots| ==> (Settled(e.slots[i]) <==> Declared(e.wire.reps[i]))
  }

  function DeclaredCount(reps: seq<WireRep>): nat {
    if reps == [] then 0
    else DeclaredCount(reps[..|reps| - 1]) + (if Declared(reps[|reps| - 1]) then 1 else 0)
  }

  /**
   * The emitted and the dropped representations partition the declared ones, so they account for
   * the whole change exactly when the wire declared each representation inline or as a stream.
   */
  lemma {:induction false} EmissionPartitions(slots: seq<Slot>, reps: seq<WireRep>)
    requires |slots| == |reps|
    requires forall i :: 0 <= i < |slots| ==> SlotFits(slots[i], reps[i]) && (Settled(slots[i]) <==> Declared(reps[i]))
    ensures |ResolvedOf(slots)| + |DroppedOf(slots)| == DeclaredCount(reps)
    ensures DeclaredCount(reps) <= |reps|
    ensures DeclaredCount(reps) == |reps| <==> forall i :: 0 <= i < |reps| ==> Declared(reps[i])
  {
    if slots != [] {
      EmissionPartitions(slots[..|slots| - 1], reps[..|reps| - 1]);
      assert forall i :: 0 <= i < |reps| - 1 ==> reps[..|reps| - 1][i] == reps[i];
    }
  }

  /** Which slots end up among the emitted (or the dropped) representations, first to last. */
  function Positions(slots: seq<Slot>, dropped: bool): (ps: seq<nat>)
    ensures forall i :: i in ps <==>
              0 <= i < |slots| && slots[i].resolved.Some? != dropped && (dropped ==> slots[i].dropped.Some?)
    ensures forall j, k :: 0 <= j < k < |ps| ==> ps[j] < ps[k]
  {
    if slots == [] then []
    else
      var n := |slots| - 1;
      var before, s := Positions(slots[..n], dropped), slots[n];
      assert forall i :: 0 <= i < n ==> slots[..n][i] == slots[i];
      assert forall k :: 0 <= k < |before| ==> before[k] in before;
      if s.resolved.Some? != dropped && (dropped ==> s.dropped.Some?) then before + [n] else before
  }

  /**
   * A payload keeps wire order: its representations are those of the resolved slots, first to last,
   * and its dropped ones those of the given-up slots; no slot is in both and every declared one is
   * in one of them.
   */
  lemma PayloadKeepsWireOrder(e: Emission)
    requires Complete(e)
    ensures var p, kept, lost := PayloadOf(e), Positions(e.slots, false), Positions(e.slots, true);
            && |p.reps| == |kept| && |p.droppedReps| == |lost|
            && (forall j :: 0 <= j < |kept| ==>
                  && kept[j] in kept && e.slots[kept[j]].resolved == Some(p.reps[j])
                  && p.reps[j].mime == e.wire.reps[kept[j]].mime)
            && (forall j :: 0 <= j < |lost| ==>
                  lost[j] in lost && e.slots[lost[j]].dropped == Some(p.droppedReps[j].code)
                  && p.droppedReps[j].mime == e.wire.reps[lost[j]].mime)
            && (forall i :: 0 <= i < |e.wire.reps| ==> (Declared(e.wire.reps[i]) <==> i in kept || i in lost))
            && (forall i :: i in kept ==> i !in lost)
  {
    ResolvedInOrder(e.slots);
    DroppedInOrder(e.slots);
  }

  lemma {:induction false} ResolvedInOrder(slots: seq<Slot>)
    ensures |ResolvedOf(slots)| == |Positions(slots, false)|
    ensures forall j :: 0 <= j < |ResolvedOf(slots)| ==>
              Positions(slots, false)[j] in Positions(slots, false)
              && slots[Positions(slots, false)[j]].resolved == Some(ResolvedOf(slots)[j])
  {
    if slots != [] {
      var init := slots[..|slots| - 1];
      ResolvedInOrder(init);
      assert forall i :: 0 <= i < |init| ==> init[i] == slots[i];
    }
  }

  lemma PositionsNext(slots: seq<Slot>, dropped: bool)
    requires slots != []
    ensures var n := |slots| - 1;
            Positions(slots, dropped)
            == Positions(slots[..n], dropped)
               + (if slots[n].resolved.Some? != dropped && (dropped ==> slots[n].dropped.Some?) then [n] else [])
  {
  }

  lemma DroppedNext(slots: seq<Slot>)
    requires slots != []
    ensures var s := slots[|slots| - 1];
            DroppedOf(slots)
            == DroppedOf(slots[..|slots| - 1])
               + (if s.resolved.None? && s.dropped.Some? then [DroppedRep(s.mime, s.dropped.value)] else [])
  {
  }

  lemma {:induction false} DroppedInOrder(slots: seq<Slot>)
    ensures |DroppedOf(slots)| == |Positions(slots, true)|
    ensures forall j :: 0 <= j < |DroppedOf(slots)| ==>
              Positions(slots, true)[j] in Positions(slots, true)
              && var s := slots[Positions(slots, true)[j]];
                 s.dropped == Some(DroppedOf(slots)[j].code) && s.mime == DroppedOf(slots)[j].mime
  {
    if slots != [] {
      var n := |slots| - 1;
      var init, before := slots[..n], Positions(slots[..n], true);
      DroppedInOrder(init);
      hide DroppedOf, Positions;
      PositionsNext(slots, true);
      DroppedNext(slots);
      forall j | 0 <= j < |before|
        ensures before[j] in before && before[j] < n && init[before[j]] == slots[before[j]]
      {
      }
    }
  }

  method BuildPayload(e: Emission) returns (p: Payload)
    ensures p == PayloadOf(e)
  {
    var reps: seq<ResolvedRep>, dropped: seq<DroppedRep> := [], [];
    for i := 0 to |e.slots|
      invariant reps == ResolvedOf(e.slots[..i]) && dropped == DroppedOf(e.slots[..i])
    {
      assert e.slots[..i + 1][..i] == e.slots[..i];
      var s := e.slots[i];
      if s.resolved.Some? {
        reps := reps + [s.resolved.value];
      } else if s.dropped.Some? {
        dropped := dropped + [DroppedRep(s.mime, s.dropped.value)];
      }
    }
    assert e.slots[..|e.slots|] == e.slots;
    p := Payload(e.wire.changeCount, reps, dropped);
  }

  // ---- steps ---------------------------------------------------------------------------------

  /** Fills one slot of a pending change; the change is emitted when it was the last. */
  function Settle(a: Assembly, at: Place, s: Slot): Assembly
    requires at.change in a.pending && at.slot < |a.pending[at.change].slots|
  {
    var p := a.pending[at.change];
    var slots := p.slots[at.slot := s];
    if p.outstanding - 1 == 0
    then a.(pending := a.pending - {at.change}, emitted := a.emitted + [Emission(at.change, p.wire, slots)])
    else a.(pending := a.pending[at.change := PendingChange(slots, p.wire, p.outstanding - 1)])
  }

  function SlotAt(a: Assembly, at: Place): Slot
    requires at.change in a.pending && at.slot < |a.pending[at.change].slots|
  {
    a.pending[at.change].slots[at.slot]
  }

  predicate PlaceExists(a: Assembly, at: Place) {
    at.change in a.pending && at.slot < |a.pending[at.change].slots|
  }

  function FilledBy(s: Slot, o: Outcome): Slot {
    if o.Completed? then s.(resolved := Some(o.rep)) else s.(dropped := Some(o.code))
  }

  // ---- the invariant -------------------------------------------------------------------------

  /** The streams that belong to one change. */
  ghost function Owned(owner: map<RepId, Place>, n: nat): set<RepId> {
    set r | r in owner && owner[r].change == n
  }

  /** Slots of the change being declared that have not had their turn yet. */
  function TodoOf(cur: Option<nat>, todo: set<nat>, n: nat): set<nat> {
    if cur == Some(n) then todo else {}
  }

  /** An owned stream feeds an empty slot that declared exactly that stream. */
  ghost predicate Feeds(a: Assembly, streams: Streams, r: RepId) {
    && r in a.owner && r in streams
    && PlaceExists(a, a.owner[r])
    && Unsettled(SlotAt(a, a.owner[r]))
    && var rep := a.pending[a.owner[r].change].wire.reps;
       && a.owner[r].slot < |rep|
       && IsChunked(rep[a.owner[r].slot]) && rep[a.owner[r].slot].repId == Some(r)
       && streams[r].mime == rep[a.owner[r].slot].mime && streams[r].uti == rep[a.owner[r].slot].uti
       && streams[r].declaredBytes == rep[a.owner[r].slot].byteLength
       && streams[r].declaredHash == rep[a.owner[r].slot].sha256
  }

  ghost predicate OwnedAt(a: Assembly, at: Place) {
    exists r :: r in a.owner && a.owner[r] == at
  }

  /** A pending change knows what each of its slots is waiting for. */
  ghost predicate ChangeSound(a: Assembly, n: nat, todo: set<nat>) {
    && n in a.pending && n < |a.wires|
    && var p := a.pending[n];
       && p.wire == a.wires[n]
       && SlotsFit(p.slots, p.wire)
       && p.outstanding == |Owned(a.owner, n)| + |todo| > 0
       && (forall i :: 0 <= i < |p.slots| && Unsettled(p.slots[i]) && Declared(p.wire.reps[i]) ==>
             i in todo || OwnedAt(a, Place(n, i)))
       && (forall i :: i in todo ==>
             i < |p.slots| && Unsettled(p.slots[i]) && IsChunked(p.wire.reps[i]) && !OwnedAt(a, Place(n, i)))
  }

  /** Every change so far is pending or emitted, never both, never twice, and as it arrived. */
  ghost predicate Ledger(a: Assembly) {
    && (forall i :: 0 <= i < |a.emitted| ==>
          && a.emitted[i].change < |a.wires| && a.emitted[i].change !in a.pending
          && a.emitted[i].wire == a.wires[a.emitted[i].change] && Complete(a.emitted[i]))
    && (forall i, j :: 0 <= i < j < |a.emitted| ==> a.emitted[i].change != a.emitted[j].change)
    && (forall n: nat :: n < |a.wires| ==> n in a.pending || EmittedIn(a.emitted, n))
  }

  ghost predicate EmittedIn(emitted: seq<Emission>, n: nat) {
    exists i :: 0 <= i < |emitted| && emitted[i].change == n
  }

  /** The open streams are exactly the owned ones, and each feeds a slot of its own. */
  ghost predicate Linked(a: Assembly, streams: Streams) {
    && Bounded(streams)
    && a.owner.Keys == streams.Keys
    && AllFeed(a, streams)
    && OneEach(a.owner)
  }

  ghost predicate AllFeed(a: Assembly, streams: Streams) {
    forall r :: r in a.owner ==> Feeds(a, streams, r)
  }

  ghost predicate OneEach(owner: map<RepId, Place>) {
    forall r, q :: r in owner && q in owner && owner[r] == owner[q] ==> r == q
  }

  ghost predicate Inv(a: Assembly, streams: Streams, cur: Option<nat>, todo: set<nat>) {
    && Linked(a, streams)
    && (forall n :: n in a.pending ==> ChangeSound(a, n, TodoOf(cur, todo, n)))
    && (todo != {} ==> cur.Some? && cur.value in a.pending)
    && Ledger(a)
  }

  lemma OwnedWithout(owner: map<RepId, Place>, r: RepId, n: nat)
    requires r in owner
    ensures Owned(owner - {r}, n) == Owned(owner, n) - {r}
    ensures |Owned(owner - {r}, n)| == |Owned(owner, n)| - (if owner[r].change == n then 1 else 0)
  {
    assert Owned(owner - {r}, n) == Owned(owner, n) - {r};
  }

  lemma OwnedWith(owner: map<RepId, Place>, r: RepId, at: Place, n: nat)
    requires r !in owner
    ensures |Owned(owner[r := at], n)| == |Owned(owner, n)| + (if at.change == n then 1 else 0)
  {
    assert Owned(owner[r := at], n) == Owned(owner, n) + (if at.change == n then {r} else {});
  }

  // ---- one slot at a time --------------------------------------------------------------------

  /** Like ChangeSound, but slot k is about to be settled or owned and waits for nothing. */
  ghost predicate LooseChange(a: Assembly, n: nat, todo: set<nat>, k: nat) {
    && n in a.pending && n < |a.wires|
    && var p := a.pending[n];
       && p.wire == a.wires[n]
       && SlotsFit(p.slots, p.wire)
       && p.outstanding == |Owned(a.owner, n)| + |todo| + 1
       && k < |p.slots| && Unsettled(p.slots[k]) && IsChunked(p.wire.reps[k]) && k !in todo && !OwnedAt(a, Place(n, k))
       && (forall i :: 0 <= i < |p.slots| && i != k && Unsettled(p.slots[i]) && Declared(p.wire.reps[i]) ==>
             i in todo || OwnedAt(a, Place(n, i)))
       && (forall i :: i in todo ==>
             i < |p.slots| && Unsettled(p.slots[i]) && IsChunked(p.wire.reps[i]) && !OwnedAt(a, Place(n, i)))
  }

  ghost predicate Loose(a: Assembly, streams: Streams, cur: Option<nat>, todo: set<nat>, at: Place) {
    && Linked(a, streams)
    && (forall n :: n in a.pending && n != at.change ==> ChangeSound(a, n, TodoOf(cur, todo, n)))
    && LooseChange(a, at.change, TodoOf(cur, todo, at.change), at.slot)
    && (todo != {} ==> cur.Some? && cur.value in a.pending)
    && Ledger(a)
  }

  function Disowned(a: Assembly, r: RepId): Assembly {
    a.(owner := a.owner - {r})
  }

  lemma OwnedAtWithout(a: Assembly, streams: Streams, r: RepId, at: Place)
    requires Linked(a, streams) && r in a.owner
    ensures OwnedAt(Disowned(a, r), at) <==> OwnedAt(a, at) && at != a.owner[r]
  {
    assert OneEach(a.owner);
    hide Linked, Feeds;
    var rest := a.owner - {r};
    if OwnedAt(a, at) && at != a.owner[r] {
      var q :| q in a.owner && a.owner[q] == at;
      assert q in rest && rest[q] == at;
    }
    if OwnedAt(Disowned(a, r), at) {
      var q :| q in rest && rest[q] == at;
      assert q in a.owner && a.owner[q] == at;
    }
  }

  lemma LinkedWithout(a: Assembly, streams: Streams, r: RepId)
    requires Linked(a, streams) && r in a.owner && Bounded(streams - {r})
    ensures Linked(Disowned(a, r), streams - {r})
  {
    forall q | q in Disowned(a, r).owner
      ensures Feeds(Disowned(a, r), streams - {r}, q)
    {
      FeedsWithout(a, streams, r, q);
    }
  }

  lemma FeedsWithout(a: Assembly, streams: Streams, r: RepId, q: RepId)
    requires Feeds(a, streams, q) && q != r
    ensures Feeds(Disowned(a, r), streams - {r}, q)
  {
  }

  lemma ChangeSoundWithout(a: Assembly, streams: Streams, r: RepId, n: nat, todo: set<nat>)
    requires Linked(a, streams) && r in a.owner && a.owner[r].change != n && ChangeSound(a, n, todo)
    ensures ChangeSound(Disowned(a, r), n, todo)
  {
    OwnedWithout(a.owner, r, n);
    forall i: nat
      ensures OwnedAt(Disowned(a, r), Place(n, i)) <==> OwnedAt(a, Place(n, i))
    {
      OwnedAtWithout(a, streams, r, Place(n, i));
    }
  }

  lemma LooseWithout(a: Assembly, streams: Streams, r: RepId, todo: set<nat>)
    requires Linked(a, streams) && r in a.owner && ChangeSound(a, a.owner[r].change, todo)
    ensures LooseChange(Disowned(a, r), a.owner[r].change, todo, a.owner[r].slot)
  {
    var at := a.owner[r];
    assert Feeds(a, streams, r) && OwnedAt(a, at);
    OwnedWithout(a.owner, r, at.change);
    forall i: nat
      ensures OwnedAt(Disowned(a, r), Place(at.change, i)) <==> OwnedAt(a, Place(at.change, i)) && i != at.slot
    {
      OwnedAtWithout(a, streams, r, Place(at.change, i));
    }
  }

  /** A stream closes: its slot comes loose. */
  lemma UnlinkOwned(a: Assembly, streams: Streams, cur: Option<nat>, todo: set<nat>, r: RepId)
    requires Inv(a, streams, cur, todo) && r in a.owner && Bounded(streams - {r})
    ensures Loose(Disowned(a, r), streams - {r}, cur, todo, a.owner[r])
  {
    var at := a.owner[r];
    assert Feeds(a, streams, r);
    LinkedWithout(a, streams, r);
    forall n | n in a.pending && n != at.change
      ensures ChangeSound(Disowned(a, r), n, TodoOf(cur, todo, n))
    {
      ChangeSoundWithout(a, streams, r, n, TodoOf(cur, todo, n));
    }
    LooseWithout(a, streams, r, TodoOf(cur, todo, at.change));
  }

  /** A declared slot gets its turn: it comes loose. */
  lemma UnlinkTodo(a: Assembly, streams: Streams, n: nat, todo: set<nat>, i: nat)
    requires Inv(a, streams, Some(n), todo) && i in todo
    ensures Loose(a, streams, Some(n), todo - {i}, Place(n, i))
  {
    hide ChangeSound, LooseChange, Linked, Ledger;
    forall m | m in a.pending && m != n
      ensures ChangeSound(a, m, TodoOf(Some(n), todo - {i}, m))
    {
      assert ChangeSound(a, m, TodoOf(Some(n), todo, m));
    }
    assert ChangeSound(a, n, TodoOf(Some(n), todo, n));
    LooseTodo(a, n, todo, i);
  }

  lemma LooseTodo(a: Assembly, n: nat, todo: set<nat>, i: nat)
    requires ChangeSound(a, n, todo) && i in todo
    ensures LooseChange(a, n, todo - {i}, i)
  {
    hide Owned, OwnedAt, SlotsFit, Declared;
  }

  function OwnedBy(a: Assembly, r: RepId, at: Place): Assembly {
    a.(owner := a.owner[r := at])
  }

  lemma OwnedAtWith(a: Assembly, r: RepId, at: Place, place: Place)
    requires r !in a.owner
    ensures OwnedAt(OwnedBy(a, r, at), place) <==> OwnedAt(a, place) || place == at
  {
    var b := OwnedBy(a, r, at);
    if OwnedAt(a, place) {
      var q :| q in a.owner && a.owner[q] == place;
      assert q in b.owner && b.owner[q] == place;
    }
    assert r in b.owner && b.owner[r] == at;
  }

  lemma LinkedWith(a: Assembly, streams: Streams, at: Place, r: RepId, s: Stream)
    requires Linked(a, streams) && r !in a.owner && !OwnedAt(a, at)
    requires Feeds(OwnedBy(a, r, at), streams[r := s], r) && Bounded(streams[r := s])
    ensures Linked(OwnedBy(a, r, at), streams[r := s])
  {
    hide Feeds, Bounded, OneEach, AllFeed, OwnedAt;
    AllFeedWith(a, streams, at, r, s);
    OneEachWith(a, at, r);
    assert OwnedBy(a, r, at).owner.Keys == a.owner.Keys + {r} == streams[r := s].Keys;
  }

  lemma AllFeedWith(a: Assembly, streams: Streams, at: Place, r: RepId, s: Stream)
    requires AllFeed(a, streams) && r !in a.owner && Feeds(OwnedBy(a, r, at), streams[r := s], r)
    ensures AllFeed(OwnedBy(a, r, at), streams[r := s])
  {
    hide Feeds;
    forall q | q in a.owner
      ensures Feeds(OwnedBy(a, r, at), streams[r := s], q)
    {
      StillFeedsWith(a, streams, r, at, s, q);
    }
  }

  lemma OneEachWith(a: Assembly, at: Place, r: RepId)
    requires OneEach(a.owner) && r !in a.owner && !OwnedAt(a, at)
    ensures OneEach(OwnedBy(a, r, at).owner)
  {
    assert forall q :: q in a.owner ==> a.owner[q] != at;
  }

  /** The stream opened for a loose slot feeds it. */
  lemma OpenedFeeds(a: Assembly, streams: Streams, at: Place, r: RepId, todo: set<nat>)
    requires r !in a.owner && LooseChange(a, at.change, todo, at.slot)
    requires a.pending[at.change].wire.reps[at.slot].repId == Some(r)
    ensures Feeds(OwnedBy(a, r, at), streams[r := NewStream(a.pending[at.change].wire.reps[at.slot])], r)
    ensures !OwnedAt(a, at)
  {
  }

  lemma StillFeedsWith(a: Assembly, streams: Streams, r: RepId, at: Place, s: Stream, q: RepId)
    requires Feeds(a, streams, q) && r !in a.owner
    ensures Feeds(OwnedBy(a, r, at), streams[r := s], q)
  {
  }

  lemma SoundWith(a: Assembly, at: Place, r: RepId, n: nat, todo: set<nat>)
    requires r !in a.owner
    requires if n == at.change then LooseChange(a, n, todo, at.slot) else ChangeSound(a, n, todo)
    ensures ChangeSound(OwnedBy(a, r, at), n, todo)
  {
    OwnedWith(a.owner, r, at, n);
    forall i: nat
      ensures OwnedAt(OwnedBy(a, r, at), Place(n, i)) <==> OwnedAt(a, Place(n, i)) || Place(n, i) == at
    {
      OwnedAtWith(a, r, at, Place(n, i));
    }
  }

  /** The loose slot is given to a newly opened stream. */
  lemma OwnLoose(a: Assembly, streams: Streams, cur: Option<nat>, todo: set<nat>, at: Place, r: RepId)
    requires Loose(a, streams, cur, todo, at) && r !in a.owner
    requires var rep := a.pending[at.change].wire.reps[at.slot];
             rep.repId == Some(r) && Bounded(streams[r := NewStream(rep)])
    ensures Inv(OwnedBy(a, r, at), streams[r := NewStream(a.pending[at.change].wire.reps[at.slot])], cur, todo)
  {
    OpenedFeeds(a, streams, at, r, TodoOf(cur, todo, at.change));
    LinkedWith(a, streams, at, r, NewStream(a.pending[at.change].wire.reps[at.slot]));
    forall n | n in a.pending
      ensures ChangeSound(OwnedBy(a, r, at), n, TodoOf(cur, todo, n))
    {
      SoundWith(a, at, r, n, TodoOf(cur, todo, n));
    }
  }

  // ---- settling ------------------------------------------------------------------------------

  /** The loose slot is settled; if it was the last, the change goes out complete. */
  lemma SettleLoose(a: Assembly, streams: Streams, cur: Option<nat>, todo: set<nat>, at: Place, s: Slot)
    requires Loose(a, streams, cur, todo, at)
    requires Settled(s) && SlotFits(s, a.pending[at.change].wire.reps[at.slot])
    ensures Inv(Settle(a, at, s), streams, cur, todo)
  {
    hide ChangeSound, Ledger, Linked, SlotFits;
    var b := Settle(a, at, s);
    SettleKeepsLinks(a, streams, TodoOf(cur, todo, at.change), at, s);
    forall n | n in b.pending
      ensures ChangeSound(b, n, TodoOf(cur, todo, n))
    {
      if n == at.change {
        StillWaiting(a, TodoOf(cur, todo, n), at, s);
      } else {
        assert ChangeSound(a, n, TodoOf(cur, todo, n));
        ChangeUntouched(a, n, TodoOf(cur, todo, n), at, s);
      }
    }
    SettleKeepsLedger(a, TodoOf(cur, todo, at.change), at, s);
    if todo != {} && cur.value == at.change {
      assert b.pending.Keys == a.pending.Keys;
    }
  }

  lemma SettleKeepsLinks(a: Assembly, streams: Streams, todo: set<nat>, at: Place, s: Slot)
    requires Linked(a, streams) && LooseChange(a, at.change, todo, at.slot)
    ensures Linked(Settle(a, at, s), streams)
  {
    var b := Settle(a, at, s);
    forall r | r in b.owner
      ensures Feeds(b, streams, r)
    {
      SettleKeepsFeeding(a, streams, todo, at, s, r);
    }
  }

  lemma SettleKeepsFeeding(a: Assembly, streams: Streams, todo: set<nat>, at: Place, s: Slot, r: RepId)
    requires Feeds(a, streams, r) && LooseChange(a, at.change, todo, at.slot)
    ensures Feeds(Settle(a, at, s), streams, r)
  {
    assert a.owner[r] != at by {
      assert !OwnedAt(a, at);
    }
    if a.owner[r].change == at.change {
      assert r in Owned(a.owner, at.change);
      assert |Owned(a.owner, at.change)| > 0;
    }
  }

  lemma StillWaiting(a: Assembly, todo: set<nat>, at: Place, s: Slot)
    requires LooseChange(a, at.change, todo, at.slot) && at.change in Settle(a, at, s).pending
    requires Settled(s) && SlotFits(s, a.pending[at.change].wire.reps[at.slot])
    ensures ChangeSound(Settle(a, at, s), at.change, todo)
  {
    var b := Settle(a, at, s);
    assert b.owner == a.owner;
    forall i: nat
      ensures OwnedAt(b, Place(at.change, i)) <==> OwnedAt(a, Place(at.change, i))
    {
    }
  }

  lemma ChangeUntouched(a: Assembly, n: nat, todo: set<nat>, at: Place, s: Slot)
    requires ChangeSound(a, n, todo) && n != at.change && PlaceExists(a, at)
    ensures ChangeSound(Settle(a, at, s), n, todo)
  {
    var b := Settle(a, at, s);
    assert b.owner == a.owner && b.pending[n] == a.pending[n];
    forall i: nat
      ensures OwnedAt(b, Place(n, i)) <==> OwnedAt(a, Place(n, i))
    {
    }
  }

  /** When nothing is outstanding, every declared slot is settled. */
  lemma LastSlotCompletes(a: Assembly, todo: set<nat>, at: Place, s: Slot)
    requires LooseChange(a, at.change, todo, at.slot) && a.pending[at.change].outstanding == 1
    requires Settled(s) && SlotFits(s, a.pending[at.change].wire.reps[at.slot])
    ensures Complete(Emission(at.change, a.pending[at.change].wire, a.pending[at.change].slots[at.slot := s]))
  {
    var p := a.pending[at.change];
    assert Owned(a.owner, at.change) == {} && todo == {};
    forall i | 0 <= i < |p.slots| && i != at.slot && Declared(p.wire.reps[i])
      ensures Settled(p.slots[i])
    {
      assert forall r :: r in a.owner ==> r !in Owned(a.owner, at.change);
      assert !OwnedAt(a, Place(at.change, i));
    }
  }

  lemma SettleKeepsLedger(a: Assembly, todo: set<nat>, at: Place, s: Slot)
    requires Ledger(a) && LooseChange(a, at.change, todo, at.slot)
    requires Settled(s) && SlotFits(s, a.pending[at.change].wire.reps[at.slot])
    ensures Ledger(Settle(a, at, s))
  {
    var b := Settle(a, at, s);
    if a.pending[at.change].outstanding == 1 {
      LastSlotCompletes(a, todo, at, s);
      EmitKeepsLedger(a, b, b.emitted[|a.emitted|]);
    }
  }

  /** Moving a pending change to the emitted ones keeps the ledger. */
  lemma EmitKeepsLedger(a: Assembly, b: Assembly, e: Emission)
    requires Ledger(a) && e.change in a.pending && e.change < |a.wires| && e.wire == a.wires[e.change] && Complete(e)
    requires b.pending == a.pending - {e.change} && b.emitted == a.emitted + [e] && b.wires == a.wires
    ensures Ledger(b)
  {
    forall n: nat | n < |b.wires|
      ensures n in b.pending || EmittedIn(b.emitted, n)
    {
      if n == e.change {
        assert b.emitted[|a.emitted|].change == n;
      } else if EmittedIn(a.emitted, n) {
        var i :| 0 <= i < |a.emitted| && a.emitted[i].change == n;
        assert b.emitted[i].change == n;
      }
    }
  }

  // ---- new changes ---------------------------------------------------------------------------

  /** Inline bytes are checked on arrival; a stream leaves its slot empty. */
  function InitialSlot(rep: WireRep): Slot {
    if rep.inline.Some? then
      var bytes := rep.inline.value;
      if |bytes| != rep.byteLength then Slot(rep.mime, None, Some(RepShort))
      else if HashOf(bytes) != rep.sha256 then Slot(rep.mime, None, Some(HashMismatch))
      else Slot(rep.mime, Some(ResolvedRep(rep.mime, rep.uti, bytes, |bytes|, HashOf(bytes))), None)
    else Slot(rep.mime, None, None)
  }

  function InitialSlots(reps: seq<WireRep>): seq<Slot> {
    seq(|reps|, i requires 0 <= i < |reps| => InitialSlot(reps[i]))
  }

  /** Which slots wait for a stream, in wire order. */
  function ChunkedSlots(reps: seq<WireRep>): (slots: seq<nat>)
    ensures forall i :: i in slots <==> 0 <= i < |reps| && IsChunked(reps[i])
    ensures forall j, k :: 0 <= j < k < |slots| ==> slots[j] < slots[k]
  {
    if reps == [] then []
    else
      var init := ChunkedSlots(reps[..|reps| - 1]);
      assert forall i :: 0 <= i < |reps| - 1 ==> reps[..|reps| - 1][i] == reps[i];
      assert forall k :: 0 <= k < |init| ==> init[k] in init;
      if IsChunked(reps[|reps| - 1]) then init + [|reps| - 1] else init
  }

  lemma InitialSlotsFit(w: ChangedWire)
    ensures SlotsFit(InitialSlots(w.reps), w)
  {
  }

  /** A change without streams goes out at once. */
  function EmittedNow(a: Assembly, w: ChangedWire): Assembly {
    a.(emitted := a.emitted + [Emission(|a.wires|, w, InitialSlots(w.reps))], wires := a.wires + [w])
  }

  function Opened(a: Assembly, w: ChangedWire): Assembly {
    a.(pending := a.pending[|a.wires| := PendingChange(InitialSlots(w.reps), w, |ChunkedSlots(w.reps)|)],
       wires := a.wires + [w])
  }

  lemma PendingBelowNext(a: Assembly, streams: Streams, n: nat)
    requires Inv(a, streams, None, {}) && n in a.pending
    ensures n < |a.wires|
  {
    assert ChangeSound(a, n, {});
  }

  /** The numbers of the changes seen so far are below the next one. */
  lemma NextIsNew(a: Assembly, streams: Streams)
    requires Inv(a, streams, None, {})
    ensures |a.wires| !in a.pending && Owned(a.owner, |a.wires|) == {}
    ensures forall i: nat :: !OwnedAt(a, Place(|a.wires|, i))
  {
    forall n | n in a.pending
      ensures n < |a.wires|
    {
      PendingBelowNext(a, streams, n);
    }
    OwnersArePending(a, streams);
  }

  lemma OwnersArePending(a: Assembly, streams: Streams)
    requires Linked(a, streams)
    ensures forall r :: r in a.owner ==> a.owner[r].change in a.pending
  {
    forall r | r in a.owner
      ensures a.owner[r].change in a.pending
    {
      assert Feeds(a, streams, r);
    }
  }

  lemma EmittedNowKeeps(a: Assembly, streams: Streams, w: ChangedWire)
    requires Inv(a, streams, None, {}) && ChunkedSlots(w.reps) == []
    ensures Inv(EmittedNow(a, w), streams, None, {})
  {
    hide Feeds, Bounded, Linked, ChangeSound;
    NextIsNew(a, streams);
    var b := EmittedNow(a, w);
    NewLinks(a, b, streams);
    EmittedNowKeepsLedger(a, w);
    hide Ledger;
    forall n | n in b.pending
      ensures ChangeSound(b, n, {})
    {
      NewLeavesOthers(a, b, n, {});
    }
  }

  lemma CompleteAtOnce(w: ChangedWire)
    requires ChunkedSlots(w.reps) == []
    ensures forall n: nat :: Complete(Emission(n, w, InitialSlots(w.reps)))
  {
    InitialSlotsFit(w);
    hide SlotsFit;
    forall i | 0 <= i < |w.reps|
      ensures Settled(InitialSlots(w.reps)[i]) <==> Declared(w.reps[i])
    {
      assert i !in ChunkedSlots(w.reps);
    }
  }

  lemma EmittedNowKeepsLedger(a: Assembly, w: ChangedWire)
    requires Ledger(a) && |a.wires| !in a.pending && ChunkedSlots(w.reps) == []
    ensures Ledger(EmittedNow(a, w))
  {
    CompleteAtOnce(w);
    var b := EmittedNow(a, w);
    hide Complete, InitialSlots, ChunkedSlots;
    forall n: nat | n < |b.wires|
      ensures n in b.pending || EmittedIn(b.emitted, n)
    {
      if n == |a.wires| {
        assert b.emitted[|a.emitted|].change == n;
      } else if EmittedIn(a.emitted, n) {
        var i :| 0 <= i < |a.emitted| && a.emitted[i].change == n;
        assert b.emitted[i].change == n;
      }
    }
  }

  lemma NewLinks(a: Assembly, b: Assembly, streams: Streams)
    requires Linked(a, streams) && b.owner == a.owner
    requires forall n :: n in a.pending ==> n in b.pending && b.pending[n] == a.pending[n]
    ensures Linked(b, streams)
  {
    forall r | r in b.owner
      ensures Feeds(b, streams, r)
    {
      assert Feeds(a, streams, r);
    }
  }

  lemma NewLeavesOthers(a: Assembly, b: Assembly, n: nat, todo: set<nat>)
    requires ChangeSound(a, n, todo) && b.owner == a.owner && a.wires <= b.wires
    requires n in b.pending && b.pending[n] == a.pending[n]
    ensures ChangeSound(b, n, todo)
  {
    forall i: nat
      ensures OwnedAt(b, Place(n, i)) <==> OwnedAt(a, Place(n, i))
    {
    }
  }

  function SetOf(slots: seq<nat>): set<nat> {
    set i | i in slots
  }

  lemma {:induction false} DistinctSet(slots: seq<nat>)
    requires forall j, k :: 0 <= j < k < |slots| ==> slots[j] < slots[k]
    ensures |SetOf(slots)| == |slots|
  {
    if slots != [] {
      var init, last := slots[..|slots| - 1], slots[|slots| - 1];
      DistinctSet(init);
      assert last !in SetOf(init);
      assert SetOf(slots) == SetOf(init) + {last} by {
        assert slots == init + [last];
      }
    }
  }

  lemma OpenedKeeps(a: Assembly, streams: Streams, w: ChangedWire)
    requires Inv(a, streams, None, {}) && ChunkedSlots(w.reps) != []
    ensures Inv(Opened(a, w), streams, Some(|a.wires|), SetOf(ChunkedSlots(w.reps)))
  {
    hide Feeds, Bounded, LooseChange;
    NextIsNew(a, streams);
    var b, todo := Opened(a, w), SetOf(ChunkedSlots(w.reps));
    NewLinks(a, b, streams);
    forall n | n in b.pending
      ensures ChangeSound(b, n, TodoOf(Some(|a.wires|), todo, n))
    {
      if n == |a.wires| {
        OpenedIsSound(a, streams, w);
      } else {
        NewLeavesOthers(a, b, n, {});
      }
    }
    OpenedKeepsLedger(a, w);
  }

  lemma OpenedKeepsLedger(a: Assembly, w: ChangedWire)
    requires Ledger(a) && |a.wires| !in a.pending
    ensures Ledger(Opened(a, w))
  {
    forall n: nat | n < |Opened(a, w).wires|
      ensures n in Opened(a, w).pending || EmittedIn(Opened(a, w).emitted, n)
    {
    }
  }

  lemma OpenedIsSound(a: Assembly, streams: Streams, w: ChangedWire)
    requires Inv(a, streams, None, {}) && ChunkedSlots(w.reps) != []
    ensures ChangeSound(Opened(a, w), |a.wires|, SetOf(ChunkedSlots(w.reps)))
  {
    hide Inv, InitialSlots, SlotsFit, OwnedAt, Owned, ChunkedSlots, SetOf, Unsettled, Declared, IsChunked;
    NextIsNew(a, streams);
    InitialSlotsFit(w);
    SlotsToOpen(w);
    SameOwners(a, Opened(a, w));
    assert |Owned(a.owner, |a.wires|)| == 0;
  }

  lemma SlotsToOpen(w: ChangedWire)
    requires ChunkedSlots(w.reps) != []
    ensures var slots, todo := InitialSlots(w.reps), SetOf(ChunkedSlots(w.reps));
            && |slots| == |w.reps| && |todo| == |ChunkedSlots(w.reps)| > 0
            && (forall i :: 0 <= i < |slots| && Unsettled(slots[i]) && Declared(w.reps[i]) ==> i in todo)
            && (forall i :: i in todo ==> i < |slots| && Unsettled(slots[i]) && IsChunked(w.reps[i]))
  {
    DistinctSet(ChunkedSlots(w.reps));
  }

  lemma SameOwners(a: Assembly, b: Assembly)
    requires b.owner == a.owner
    ensures forall at :: OwnedAt(b, at) <==> OwnedAt(a, at)
  {
  }

  // ---- streams that end ----------------------------------------------------------------------

  /** What a stream's outcome puts into its slot is what the wire promised, or a reason. */
  lemma OutcomeFits(a: Assembly, streams: Streams, r: RepId, o: Outcome)
    requires Feeds(a, streams, r) && r == o.repId && AnswerFits(streams, o)
    requires SlotsFit(a.pending[a.owner[r].change].slots, a.pending[a.owner[r].change].wire)
    ensures var s := FilledBy(SlotAt(a, a.owner[r]), o);
            Settled(s) && SlotFits(s, a.pending[a.owner[r].change].wire.reps[a.owner[r].slot])
  {
  }

  /** What the consumer may be told about a stream: the declared bytes, or a reason. */
  ghost predicate AnswerFits(streams: Streams, o: Outcome) {
    o.repId in streams
    && (o.Completed? ==>
          && |o.rep.bytes| == streams[o.repId].declaredBytes == o.rep.byteLength
          && HashOf(o.rep.bytes) == streams[o.repId].declaredHash == o.rep.sha256
          && o.rep.mime == streams[o.repId].mime && o.rep.uti == streams[o.repId].uti)
  }

  /** The answer to a stream's outcome: the stream is disowned and its slot settled. */
  function Answered(a: Assembly, o: Outcome): Assembly
    requires o.repId in a.owner && PlaceExists(a, a.owner[o.repId])
  {
    Settle(Disowned(a, o.repId), a.owner[o.repId], FilledBy(SlotAt(a, a.owner[o.repId]), o))
  }

  /** A stream that ends settles its slot. */
  lemma StreamEnds(a: Assembly, streams: Streams, o: Outcome)
    requires Inv(a, streams, None, {}) && Bounded(streams - {o.repId}) && AnswerFits(streams, o)
    ensures o.repId in a.owner && PlaceExists(a, a.owner[o.repId])
    ensures Inv(Answered(a, o), streams - {o.repId}, None, {})
  {
    var r := o.repId;
    assert Feeds(a, streams, r) && ChangeSound(a, a.owner[r].change, {});
    OutcomeFits(a, streams, r, o);
    UnlinkOwned(a, streams, None, {}, r);
    SettleLoose(Disowned(a, r), streams - {r}, None, {}, a.owner[r], FilledBy(SlotAt(a, a.owner[r]), o));
  }

  /** A stream that merely grows changes nothing here. */
  lemma StreamGrows(a: Assembly, streams: Streams, r: RepId, data: Bytes)
    requires Inv(a, streams, None, {}) && r in streams && Bounded(streams[r := Grown(streams[r], data)])
    ensures Inv(a, streams[r := Grown(streams[r], data)], None, {})
  {
    hide ChangeSound, Ledger, Feeds;
    var grown := streams[r := Grown(streams[r], data)];
    assert Linked(a, grown) by {
      forall q | q in a.owner
        ensures Feeds(a, grown, q)
      {
        StillFeeds(a, streams, r, data, q);
      }
      assert grown.Keys == streams.Keys;
    }
  }

  lemma StillFeeds(a: Assembly, streams: Streams, r: RepId, data: Bytes, q: RepId)
    requires Feeds(a, streams, q) && r in streams
    ensures Feeds(a, streams[r := Grown(streams[r], data)], q)
  {
  }

  lemma ChunkWithoutOutcome(streams: Streams, c: ChunkIn)
    requires ChunkStep(streams, c).1.None?
    ensures ChunkStep(streams, c).0 == streams
         || (c.repId in streams && c.data.Some?
             && ChunkStep(streams, c).0 == streams[c.repId := Grown(streams[c.repId], c.data.value)])
  {
  }

  lemma DoneDeclaring(a: Assembly, streams: Streams, n: nat)
    ensures Inv(a, streams, Some(n), {}) <==> Inv(a, streams, None, {})
  {
    assert forall m :: TodoOf(Some(n), {}, m) == TodoOf(None, {}, m);
  }

  /** A change is still pending exactly while one of its streams is open. */
  lemma WaitsExactlyForItsStreams(a: Assembly, streams: Streams, n: nat)
    requires Inv(a, streams, None, {})
    ensures n in a.pending <==> exists r :: r in streams && r in a.owner && a.owner[r].change == n
  {
    if n in a.pending {
      assert ChangeSound(a, n, {});
      assert Owned(a.owner, n) != {};
      var r :| r in Owned(a.owner, n);
      assert r in streams;
    }
    OwnersArePending(a, streams);
  }

  /** Each change so far has been emitted exactly once or is still pending. */
  lemma EmittedOnce(a: Assembly, streams: Streams)
    requires Inv(a, streams, None, {})
    ensures forall n: nat :: n < |a.wires| ==> (n in a.pending <==> !EmittedIn(a.emitted, n))
    ensures |a.emitted| + |a.pending| == |a.wires|
    ensures forall i :: 0 <= i < |a.emitted| ==>
              && a.emitted[i].change < |a.wires| && a.emitted[i].wire == a.wires[a.emitted[i].change]
              && Complete(a.emitted[i])
  {
    assert Ledger(a);
    forall n | n in a.pending
      ensures n < |a.wires|
    {
      PendingBelowNext(a, streams, n);
    }
    Tally(a);
  }

  /** What still waits is what arrived. */
  lemma PendingAsArrived(a: Assembly, streams: Streams)
    requires Inv(a, streams, None, {})
    ensures forall n :: n in a.pending ==> n < |a.wires| && a.pending[n].wire == a.wires[n]
  {
    forall n | n in a.pending
      ensures n < |a.wires| && a.pending[n].wire == a.wires[n]
    {
      assert ChangeSound(a, n, {});
    }
  }

  function EmittedIds(emitted: seq<Emission>): set<nat> {
    set i | 0 <= i < |emitted| :: emitted[i].change
  }

  lemma Tally(a: Assembly)
    requires Ledger(a) && forall n :: n in a.pending ==> n < |a.wires|
    ensures |a.emitted| + |a.pending| == |a.wires|
  {
    LedgerIsDistinct(a);
    hide Ledger, EmittedIds;
    IdsAreBelow(a);
    DistinctChanges(a.emitted);
    DisjointSize(EmittedIds(a.emitted), a.pending.Keys);
    assert |a.pending.Keys| == |a.pending|;
  }

  lemma LedgerIsDistinct(a: Assembly)
    requires Ledger(a)
    ensures forall i, j :: 0 <= i < j < |a.emitted| ==> a.emitted[i].change != a.emitted[j].change
  {
  }

  lemma IdsAreBelow(a: Assembly)
    requires Ledger(a) && forall n :: n in a.pending ==> n < |a.wires|
    ensures EmittedIds(a.emitted) + a.pending.Keys == Below(|a.wires|) && EmittedIds(a.emitted) !! a.pending.Keys
  {
    hide Ledger, EmittedIds;
    EachIsOneOrTheOther(a);
  }

  lemma DisjointSize(a: set<nat>, b: set<nat>)
    requires a !! b
    ensures |a + b| == |a| + |b|
  {
  }

  lemma EachIsOneOrTheOther(a: Assembly)
    requires Ledger(a) && forall n :: n in a.pending ==> n < |a.wires|
    ensures EmittedIds(a.emitted) !! a.pending.Keys
    ensures forall n: nat :: n in EmittedIds(a.emitted) + a.pending.Keys <==> n < |a.wires|
  {
    hide Complete;
    forall n | n in EmittedIds(a.emitted)
      ensures n !in a.pending && n < |a.wires|
    {
      var i :| 0 <= i < |a.emitted| && a.emitted[i].change == n;
    }
    forall n: nat | n < |a.wires| && n !in a.pending
      ensures n in EmittedIds(a.emitted)
    {
      assert EmittedIn(a.emitted, n);
    }
  }

  lemma {:induction false} DistinctChanges(emitted: seq<Emission>)
    requires forall i, j :: 0 <= i < j < |emitted| ==> emitted[i].change != emitted[j].change
    ensures |EmittedIds(emitted)| == |emitted|
  {
    if emitted != [] {
      var init, last := emitted[..|emitted| - 1], emitted[|emitted| - 1];
      DistinctChanges(init);
      assert forall i :: 0 <= i < |init| ==> init[i] == emitted[i];
      assert EmittedIds(emitted) == EmittedIds(init) + {last.change};
    }
  }

  ghost function Below(n: nat): (s: set<nat>)
    ensures |s| == n && forall k: nat :: k in s <==> k < n
  {
    if n == 0 then {} else Below(n - 1) + {n - 1}
  }

  lemma TodoExists(a: Assembly, streams: Streams, n: nat, todo: set<nat>, i: nat)
    requires Inv(a, streams, Some(n), todo) && i in todo
    ensures PlaceExists(a, Place(n, i)) && SlotsFit(a.pending[n].slots, a.pending[n].wire)
    ensures Unsettled(SlotAt(a, Place(n, i))) && IsChunked(a.pending[n].wire.reps[i])
  {
    assert ChangeSound(a, n, todo);
  }

  /** A slot whose stream is refused is settled with the reason. */
  lemma RefuseTodo(a: Assembly, streams: Streams, n: nat, todo: set<nat>, i: nat, code: ErrorCode)
    requires Inv(a, streams, Some(n), todo) && i in todo
    ensures PlaceExists(a, Place(n, i))
    ensures Inv(Settle(a, Place(n, i), SlotAt(a, Place(n, i)).(dropped := Some(code))), streams, Some(n), todo - {i})
  {
    TodoExists(a, streams, n, todo, i);
    UnlinkTodo(a, streams, n, todo, i);
    RefusalFits(SlotAt(a, Place(n, i)), a.pending[n].wire.reps[i], code);
    SettleLoose(a, streams, Some(n), todo - {i}, Place(n, i), SlotAt(a, Place(n, i)).(dropped := Some(code)));
  }

  /** A slot whose stream is opened owns it. */
  lemma OpenTodo(a: Assembly, streams: Streams, n: nat, todo: set<nat>, i: nat, r: RepId)
    requires Inv(a, streams, Some(n), todo) && i in todo && r !in a.owner
    requires PlaceExists(a, Place(n, i)) && i < |a.pending[n].wire.reps|
    requires a.pending[n].wire.reps[i].repId == Some(r)
    requires Bounded(streams[r := NewStream(a.pending[n].wire.reps[i])])
    ensures Inv(OwnedBy(a, r, Place(n, i)), streams[r := NewStream(a.pending[n].wire.reps[i])], Some(n), todo - {i})
  {
    UnlinkTodo(a, streams, n, todo, i);
    OwnLoose(a, streams, Some(n), todo - {i}, Place(n, i), r);
  }

  /** A chunk without outcome is ignored or makes its stream grow. */
  lemma ChunkGrows(a: Assembly, streams: Streams, c: ChunkIn)
    requires Inv(a, streams, None, {}) && ChunkStep(streams, c).1.None? && Bounded(ChunkStep(streams, c).0)
    ensures Inv(a, ChunkStep(streams, c).0, None, {})
  {
    ChunkWithoutOutcome(streams, c);
    if ChunkStep(streams, c).0 != streams {
      StreamGrows(a, streams, c.repId, c.data.value);
    }
  }

  lemma RestOfSet(chunked: seq<nat>, k: nat)
    requires k < |chunked| && forall i, j :: 0 <= i < j < |chunked| ==> chunked[i] < chunked[j]
    ensures chunked[k] in SetOf(chunked[k..]) && SetOf(chunked[k..]) - {chunked[k]} == SetOf(chunked[k + 1..])
  {
    assert chunked[k..] == [chunked[k]] + chunked[k + 1..];
    assert chunked[k] !in chunked[k + 1..];
  }

  lemma RefusalFits(s: Slot, rep: WireRep, code: ErrorCode)
    requires Unsettled(s) && SlotFits(s, rep) && Declared(rep)
    ensures Settled(s.(dropped := Some(code))) && SlotFits(s.(dropped := Some(code)), rep)
  {
  }

  lemma NothingOpenNothingPending(a: Assembly, streams: Streams)
    requires Inv(a, streams, None, {}) && streams.Keys == {}
    ensures a.pending == map[] && a.owner == map[]
  {
    forall n: nat
      ensures n !in a.pending
    {
      WaitsExactlyForItsStreams(a, streams, n);
    }
  }
}
