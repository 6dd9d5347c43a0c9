/**
 * What each call on the change assembler does to its state and to the open streams, exactly, and
 * what follows over whole runs: every slot is settled once, by its own cause, and stays so.
 */
module ChangeSteps {
  import opened Domain
  import opened Sorting
  import opened Reassembler
  import opened ChangeAssembly

  datatype World = World(a: Assembly, streams: Streams)

  const NEW_WORLD := World(Assembly(map[], map[], [], []), map[])

  // ---- the steps -----------------------------------------------------------------------------

  /** The answer to an outcome; a stream nobody owns is nobody's business. */
  function OutcomeEffect(a: Assembly, o: Outcome): Assembly {
    if o.repId in a.owner && PlaceExists(a, a.owner[o.repId]) then Answered(a, o) else a
  }

  function ChunkEffect(w: World, c: ChunkIn): World {
    var (streams, o) := ChunkStep(w.streams, c);
    World(if o.Some? then OutcomeEffect(w.a, o.value) else w.a, streams)
  }

  /** One open stream is given up. */
  function AbortEffect(w: World, id: RepId, code: ErrorCode): World {
    if id !in w.streams then w
    else World(OutcomeEffect(w.a, AbortedRep(id, w.streams[id].mime, code)), w.streams - {id})
  }

  function AbortsEffect(w: World, order: seq<RepId>, code: ErrorCode): World {
    if order == [] then w
    else AbortEffect(AbortsEffect(w, order[..|order| - 1], code), order[|order| - 1], code)
  }

  /** Why a stream would not be opened now. */
  function Refusal(w: World, rep: WireRep, id: RepId): Option<ErrorCode> {
    if id in w.a.owner || id in w.streams || |w.streams| >= MAX_CONCURRENT_REP_STREAMS then Some(TooMany)
    else if rep.byteLength > MAX_REP_BYTES then Some(RepOverflow)
    else None
  }

  /** Slot i of change n declared a stream. */
  predicate MayTurn(w: World, n: nat, i: nat) {
    PlaceExists(w.a, Place(n, i)) && i < |w.a.pending[n].wire.reps| && w.a.pending[n].wire.reps[i].repId.Some?
  }

  function RefusalOf(w: World, n: nat, i: nat): Option<ErrorCode> {
    if !MayTurn(w, n, i) then None
    else
      var rep := w.a.pending[n].wire.reps[i];
      Refusal(w, rep, rep.repId.value)
  }

  /** Slot i of change n has its turn: its stream opens, or it is dropped with the refusal. */
  function Turn(w: World, n: nat, i: nat): World {
    if !MayTurn(w, n, i) then w
    else
      var at, rep := Place(n, i), w.a.pending[n].wire.reps[i];
      var id, refused := rep.repId.value, RefusalOf(w, n, i);
      if refused.Some? then World(Settle(w.a, at, SlotAt(w.a, at).(dropped := refused)), w.streams)
      else World(OwnedBy(w.a, id, at), w.streams[id := NewStream(rep)])
  }

  function Turns(w: World, n: nat, slots: seq<nat>): World {
    if slots == [] then w else Turn(Turns(w, n, slots[..|slots| - 1]), n, slots[|slots| - 1])
  }

  function ChangedEffect(w: World, wire: ChangedWire): World {
    if ChunkedSlots(wire.reps) == [] then World(EmittedNow(w.a, wire), w.streams)
    else Turns(World(Opened(w.a, wire), w.streams), |w.a.wires|, ChunkedSlots(wire.reps))
  }

  // ---- each step keeps the invariant ---------------------------------------------------------

  ghost predicate Good(w: World) {
    Inv(w.a, w.streams, None, {})
  }

  lemma OwnerExists(w: World, id: RepId)
    requires Good(w) && id in w.streams
    ensures id in w.a.owner && PlaceExists(w.a, w.a.owner[id]) && Unsettled(SlotAt(w.a, w.a.owner[id]))
  {
    assert Feeds(w.a, w.streams, id);
  }

  lemma ChunkKeeps(w: World, c: ChunkIn)
    requires Good(w)
    ensures Good(ChunkEffect(w, c))
  {
    ChunkKeepsBounds(w.streams, c);
    var o := ChunkStep(w.streams, c).1;
    if o.Some? {
      CompletionIsExact(w.streams, c);
      StreamEnds(w.a, w.streams, o.value);
    } else {
      ChunkGrows(w.a, w.streams, c);
    }
  }

  lemma AbortKeeps(w: World, id: RepId, code: ErrorCode)
    requires Good(w)
    ensures Good(AbortEffect(w, id, code))
  {
    if id in w.streams {
      RemovalShrinks(w.streams, id);
      StreamEnds(w.a, w.streams, AbortedRep(id, w.streams[id].mime, code));
    }
  }

  lemma {:induction false} AbortsKeep(w: World, order: seq<RepId>, code: ErrorCode)
    requires Good(w)
    ensures Good(AbortsEffect(w, order, code))
    ensures AbortsEffect(w, order, code).streams == w.streams - (set id | id in order)
  {
    hide Good, OutcomeEffect;
    if order != [] {
      var init, last := order[..|order| - 1], order[|order| - 1];
      AbortsKeep(w, init, code);
      AbortKeeps(AbortsEffect(w, init, code), last, code);
      assert order == init + [last];
    }
  }

  lemma TurnKeeps(w: World, n: nat, todo: set<nat>, i: nat)
    requires Inv(w.a, w.streams, Some(n), todo) && i in todo
    ensures Inv(Turn(w, n, i).a, Turn(w, n, i).streams, Some(n), todo - {i})
  {
    TodoExists(w.a, w.streams, n, todo, i);
    var rep := w.a.pending[n].wire.reps[i];
    var refused := Refusal(w, rep, rep.repId.value);
    if refused.Some? {
      RefuseTodo(w.a, w.streams, n, todo, i, refused.value);
    } else {
      UpdateSize(w.streams, rep.repId.value, NewStream(rep));
      OpenTodo(w.a, w.streams, n, todo, i, rep.repId.value);
    }
  }

  ghost predicate Ascending(slots: seq<nat>) {
    forall j, k :: 0 <= j < k < |slots| ==> slots[j] < slots[k]
  }

  lemma {:induction false} TurnsKeep(w: World, n: nat, slots: seq<nat>, k: nat)
    requires Inv(w.a, w.streams, Some(n), SetOf(slots)) && Ascending(slots) && k <= |slots|
    ensures var after := Turns(w, n, slots[..k]);
            Inv(after.a, after.streams, Some(n), SetOf(slots[k..]))
  {
    if k == 0 {
      assert slots[0..] == slots;
    } else {
      TurnsKeep(w, n, slots, k - 1);
      assert slots[..k][..k - 1] == slots[..k - 1];
      RestOfSet(slots, k - 1);
      TurnKeeps(Turns(w, n, slots[..k - 1]), n, SetOf(slots[k - 1..]), slots[k - 1]);
    }
  }

  lemma SlotsAscend(reps: seq<WireRep>)
    ensures Ascending(ChunkedSlots(reps))
  {
  }

  lemma NoneLeft(slots: seq<nat>)
    ensures slots[..|slots|] == slots && SetOf(slots[|slots|..]) == {}
  {
  }

  lemma ChangedKeeps(w: World, wire: ChangedWire)
    requires Good(w)
    ensures Good(ChangedEffect(w, wire))
  {
    hide Inv, ChunkedSlots, Ascending, SetOf, Turns;
    var slots := ChunkedSlots(wire.reps);
    if slots == [] {
      EmittedNowKeeps(w.a, w.streams, wire);
    } else {
      SlotsAscend(wire.reps);
      OpenedKeeps(w.a, w.streams, wire);
      var opening := World(Opened(w.a, wire), w.streams);
      TurnsKeep(opening, |w.a.wires|, slots, |slots|);
      NoneLeft(slots);
      var after := Turns(opening, |w.a.wires|, slots);
      DoneDeclaring(after.a, after.streams, |w.a.wires|);
    }
  }

  // ---- which slot a step touches -------------------------------------------------------------

  ghost function EmissionOf(emitted: seq<Emission>, n: nat): Option<Emission> {
    if emitted == [] then None
    else if emitted[|emitted| - 1].change == n then Some(emitted[|emitted| - 1])
    else EmissionOf(emitted[..|emitted| - 1], n)
  }

  /** A slot of a change, wherever the change is now: still pending or handed on. */
  ghost function SlotOf(a: Assembly, at: Place): Option<Slot> {
    if at.change in a.pending
    then if at.slot < |a.pending[at.change].slots| then Some(a.pending[at.change].slots[at.slot]) else None
    else
      var e := EmissionOf(a.emitted, at.change);
      if e.Some? && at.slot < |e.value.slots| then Some(e.value.slots[at.slot]) else None
  }

  lemma EmissionAppend(emitted: seq<Emission>, e: Emission, n: nat)
    ensures EmissionOf(emitted + [e], n) == if e.change == n then Some(e) else EmissionOf(emitted, n)
  {
    assert (emitted + [e])[..|emitted|] == emitted;
  }

  /** Settling changes one slot of one change, whether or not the change goes out with it. */
  lemma SettleFillsOne(a: Assembly, at: Place, s: Slot, p: Place)
    requires PlaceExists(a, at)
    ensures SlotOf(Settle(a, at, s), p) == if p == at then Some(s) else SlotOf(a, p)
  {
    var change := a.pending[at.change];
    EmissionAppend(a.emitted, Emission(at.change, change.wire, change.slots[at.slot := s]), p.change);
  }

  lemma OutcomeFillsOne(a: Assembly, o: Outcome, p: Place)
    requires o.repId in a.owner && PlaceExists(a, a.owner[o.repId])
    ensures SlotOf(OutcomeEffect(a, o), p)
         == if p == a.owner[o.repId] then Some(FilledBy(SlotAt(a, p), o)) else SlotOf(a, p)
    ensures OutcomeEffect(a, o).owner == a.owner - {o.repId}
  {
    SettleFillsOne(Disowned(a, o.repId), a.owner[o.repId], FilledBy(SlotAt(a, a.owner[o.repId]), o), p);
  }

  /**
   * A chunk that completes its stream fills the slot that owns it with that representation; one
   * that breaks it drops that slot with the fault; no other slot of any change is touched.
   */
  lemma ChunkFillsOne(w: World, c: ChunkIn, p: Place)
    requires Good(w)
    ensures var o := ChunkStep(w.streams, c).1;
            if o.Some? && c.repId in w.a.owner && w.a.owner[c.repId] == p
            then SlotOf(w.a, p).Some? && SlotOf(ChunkEffect(w, c).a, p) == Some(FilledBy(SlotOf(w.a, p).value, o.value))
            else SlotOf(ChunkEffect(w, c).a, p) == SlotOf(w.a, p)
  {
    hide Good, ChunkStep, Settle, FilledBy, OutcomeEffect, SlotOf;
    var o := ChunkStep(w.streams, c).1;
    if o.Some? {
      OutcomeOfChunk(w.streams, c);
      OwnerExists(w, c.repId);
      OwnedSlot(w.a, w.a.owner[c.repId]);
      OutcomeFillsOne(w.a, o.value, p);
    }
  }

  lemma OwnedSlot(a: Assembly, p: Place)
    requires PlaceExists(a, p)
    ensures SlotOf(a, p) == Some(SlotAt(a, p))
  {
  }

  lemma OutcomeOfChunk(streams: Streams, c: ChunkIn)
    requires ChunkStep(streams, c).1.Some?
    ensures ChunkStep(streams, c).1.value.repId == c.repId && c.repId in streams
  {
  }

  lemma AbortFillsOne(w: World, id: RepId, code: ErrorCode, p: Place)
    requires Good(w) && id in w.streams
    ensures id in w.a.owner && SlotOf(w.a, w.a.owner[id]).Some?
    ensures SlotOf(AbortEffect(w, id, code).a, p)
         == if p == w.a.owner[id] then Some(SlotOf(w.a, p).value.(dropped := Some(code))) else SlotOf(w.a, p)
    ensures AbortEffect(w, id, code).a.owner == w.a.owner - {id}
  {
    OwnerExists(w, id);
    OutcomeFillsOne(w.a, AbortedRep(id, w.streams[id].mime, code), p);
  }

  ghost predicate OwnedAmong(w: World, order: seq<RepId>, p: Place) {
    exists id :: id in order && id in w.a.owner && w.a.owner[id] == p
  }

  /** Giving several streams up drops their slots with the reason and touches no other. */
  lemma {:induction false} AbortsFillTheirs(w: World, order: seq<RepId>, code: ErrorCode, p: Place)
    requires Good(w) && Distinct(order) && forall id :: id in order ==> id in w.streams
    ensures if OwnedAmong(w, order, p)
            then SlotOf(w.a, p).Some?
                 && SlotOf(AbortsEffect(w, order, code).a, p) == Some(SlotOf(w.a, p).value.(dropped := Some(code)))
            else SlotOf(AbortsEffect(w, order, code).a, p) == SlotOf(w.a, p)
    ensures AbortsEffect(w, order, code).a.owner == w.a.owner - (set id | id in order)
  {
    hide Good, AbortEffect, OutcomeEffect, SlotOf;
    if order != [] {
      var init, last := order[..|order| - 1], order[|order| - 1];
      assert order == init + [last] && last !in init;
      AbortsFillTheirs(w, init, code, p);
      AbortsKeep(w, init, code);
      var before := AbortsEffect(w, init, code);
      assert last in before.streams;
      OwnerExists(w, last);
      AbortFillsOne(before, last, code, p);
      AbortsMeetOnce(w, init, last, p);
    }
  }

  lemma OneSlotEach(w: World)
    requires Good(w)
    ensures OneEach(w.a.owner)
  {
  }

  lemma AbortsMeetOnce(w: World, init: seq<RepId>, last: RepId, p: Place)
    requires Good(w) && last !in init && last in w.a.owner
    ensures OwnedAmong(w, init + [last], p) <==> OwnedAmong(w, init, p) || w.a.owner[last] == p
    ensures w.a.owner[last] == p ==> !OwnedAmong(w, init, p)
  {
    hide Good;
    OneSlotEach(w);
    assert last in init + [last];
    assert forall id :: id in init ==> id in init + [last];
  }

  // ---- for the object ------------------------------------------------------------------------

  lemma OutcomesAreOwned(w: World, c: ChunkIn)
    requires Good(w)
    ensures var o := ChunkStep(w.streams, c).1;
            o.Some? ==> o.value.repId in w.a.owner && PlaceExists(w.a, w.a.owner[o.value.repId])
  {
    if ChunkStep(w.streams, c).1.Some? {
      OutcomeOfChunk(w.streams, c);
      hide Good, ChunkStep;
      OwnerExists(w, c.repId);
    }
  }

  /** The ids of these streams, each once. */
  ghost predicate Enumerates(order: seq<RepId>, streams: Streams) {
    Distinct(order) && forall id :: id in order <==> id in streams
  }

  lemma AbortsNext(w: World, order: seq<RepId>, id: RepId, rest: set<RepId>, code: ErrorCode)
    requires rest + {id} <= w.streams.Keys && id !in rest && Enumerates(order, w.streams - (rest + {id}))
    ensures Enumerates(order + [id], w.streams - rest)
    ensures AbortsEffect(w, order + [id], code) == AbortEffect(AbortsEffect(w, order, code), id, code)
  {
    assert (order + [id])[..|order|] == order;
    assert id !in order;
  }

  /** Giving up the streams outside `rest`, one after another, has led from w to now. */
  ghost predicate AbortedSoFar(w: World, now: World, order: seq<RepId>, rest: set<RepId>, code: ErrorCode) {
    && rest == now.streams.Keys <= w.streams.Keys
    && Enumerates(order, w.streams - rest) && now == AbortsEffect(w, order, code)
  }

  lemma AbortedNone(w: World, code: ErrorCode)
    ensures AbortedSoFar(w, w, [], w.streams.Keys, code)
  {
  }

  lemma AbortedStep(w: World, now: World, order: seq<RepId>, rest: set<RepId>, id: RepId, code: ErrorCode)
    requires AbortedSoFar(w, now, order, rest, code) && id in rest
    ensures id in now.streams
    ensures AbortedSoFar(w, AbortEffect(now, id, code), order + [id], rest - {id}, code)
  {
    hide AbortsEffect, OutcomeEffect;
    assert (rest - {id}) + {id} == rest;
    AbortsNext(w, order, id, rest - {id}, code);
  }

  lemma {:induction false} AbortsGrow(w: World, order: seq<RepId>, code: ErrorCode)
    ensures w.a.emitted <= AbortsEffect(w, order, code).a.emitted
  {
    if order != [] {
      AbortsGrow(w, order[..|order| - 1], code);
    }
  }

  lemma AbortedAll(w: World, now: World, order: seq<RepId>, code: ErrorCode)
    requires AbortedSoFar(w, now, order, {}, code)
    ensures Enumerates(order, w.streams) && now == AbortsEffect(w, order, code) && now.streams.Keys == {}
  {
    assert w.streams - {} == w.streams;
  }

  lemma EmptyWorld(w: World)
    requires Good(w) && w.streams.Keys == {}
    ensures w.a.pending == map[] && w.a.owner == map[] && w.streams == map[]
  {
    NothingOpenNothingPending(w.a, w.streams);
  }

  /** The slots of a change that has just become pending are about to have their turns. */
  ghost predicate Declaring(w: World, n: nat, slots: seq<nat>) {
    Ascending(slots) && Inv(w.a, w.streams, Some(n), SetOf(slots))
  }

  lemma StartDeclaring(w: World, wire: ChangedWire)
    requires Good(w) && ChunkedSlots(wire.reps) != []
    ensures Declaring(World(Opened(w.a, wire), w.streams), |w.a.wires|, ChunkedSlots(wire.reps))
  {
    OpenedKeeps(w.a, w.streams, wire);
  }

  lemma NextTurn(w: World, n: nat, slots: seq<nat>, k: nat)
    requires Declaring(w, n, slots) && k < |slots|
    ensures var now := Turns(w, n, slots[..k]);
            && PlaceExists(now.a, Place(n, slots[k]))
            && slots[k] < |now.a.pending[n].wire.reps| && now.a.pending[n].wire.reps[slots[k]].repId.Some?
            && Turns(w, n, slots[..k + 1]) == Turn(now, n, slots[k])
  {
    TurnsKeep(w, n, slots, k);
    RestOfSet(slots, k);
    var now := Turns(w, n, slots[..k]);
    TodoExists(now.a, now.streams, n, SetOf(slots[k..]), slots[k]);
    assert slots[..k + 1][..k] == slots[..k];
  }

  lemma TurnGrows(w: World, n: nat, i: nat)
    ensures Turn(w, n, i).a.wires == w.a.wires
  {
  }

  lemma {:induction false} TurnsGrow(w: World, n: nat, slots: seq<nat>)
    ensures Turns(w, n, slots).a.wires == w.a.wires
  {
    if slots != [] {
      TurnsGrow(w, n, slots[..|slots| - 1]);
      TurnGrows(Turns(w, n, slots[..|slots| - 1]), n, slots[|slots| - 1]);
    }
  }

  lemma ChangedGrows(w: World, wire: ChangedWire)
    ensures ChangedEffect(w, wire).a.wires == w.a.wires + [wire]
  {
    if ChunkedSlots(wire.reps) != [] {
      TurnsGrow(World(Opened(w.a, wire), w.streams), |w.a.wires|, ChunkedSlots(wire.reps));
    }
  }

  // ---- whole runs ----------------------------------------------------------------------------

  datatype Event =
    | Changed(wire: ChangedWire)
    | Chunk(chunk: ChunkIn)
    | TimedOut(repId: RepId)
    | Aborting(code: ErrorCode)

  /** One event; `order` matters only where everything is aborted. */
  function EventEffect(w: World, e: Event, order: seq<RepId>): World {
    match e
    case Changed(wire) => ChangedEffect(w, wire)
    case Chunk(c) => ChunkEffect(w, c)
    case TimedOut(id) => AbortEffect(w, id, RepTimeout)
    case Aborting(code) => AbortsEffect(w, order, code)
  }

  function Played(events: seq<Event>, orders: seq<seq<RepId>>): World
    requires |orders| == |events|
  {
    if events == [] then NEW_WORLD
    else
      var n := |events| - 1;
      EventEffect(Played(events[..n], orders[..n]), events[n], orders[n])
  }

  /** Where everything is aborted, every open stream has its turn once. */
  ghost predicate OrderFits(w: World, e: Event, order: seq<RepId>) {
    e.Aborting? ==> Enumerates(order, w.streams)
  }

  ghost predicate OrdersFit(events: seq<Event>, orders: seq<seq<RepId>>) {
    && |orders| == |events|
    && forall k :: 0 <= k < |events| ==> OrderFits(Played(events[..k], orders[..k]), events[k], orders[k])
  }

  /** The changes among the events, in order of arrival. */
  function WiresIn(events: seq<Event>): seq<ChangedWire> {
    if events == [] then []
    else
      var last := events[|events| - 1];
      WiresIn(events[..|events| - 1]) + (if last.Changed? then [last.wire] else [])
  }

  lemma EventKeeps(w: World, e: Event, order: seq<RepId>)
    requires Good(w) && OrderFits(w, e, order)
    ensures Good(EventEffect(w, e, order))
    ensures EventEffect(w, e, order).a.wires == w.a.wires + (if e.Changed? then [e.wire] else [])
  {
    hide Good, ChunkEffect, AbortEffect, AbortsEffect, ChangedEffect;
    match e
    case Changed(wire) => ChangedKeeps(w, wire); ChangedGrows(w, wire);
    case Chunk(c) => ChunkKeeps(w, c); ChunkKeepsWires(w, c);
    case TimedOut(id) => AbortKeeps(w, id, RepTimeout); AbortKeepsWires(w, id, RepTimeout);
    case Aborting(code) => AbortsKeep(w, order, code); AbortsKeepWires(w, order, code);
  }

  lemma ChunkKeepsWires(w: World, c: ChunkIn)
    ensures ChunkEffect(w, c).a.wires == w.a.wires
  {
  }

  lemma AbortKeepsWires(w: World, id: RepId, code: ErrorCode)
    ensures AbortEffect(w, id, code).a.wires == w.a.wires
  {
  }

  lemma {:induction false} AbortsKeepWires(w: World, order: seq<RepId>, code: ErrorCode)
    ensures AbortsEffect(w, order, code).a.wires == w.a.wires
  {
    if order != [] {
      AbortsKeepWires(w, order[..|order| - 1], code);
      AbortKeepsWires(AbortsEffect(w, order[..|order| - 1], code), order[|order| - 1], code);
    }
  }

  lemma {:induction false} RunsAreGood(events: seq<Event>, orders: seq<seq<RepId>>)
    requires OrdersFit(events, orders)
    ensures Good(Played(events, orders)) && Played(events, orders).a.wires == WiresIn(events)
  {
    if events != [] {
      var n := |events| - 1;
      OrdersFitPrefix(events, orders, n);
      RunsAreGood(events[..n], orders[..n]);
      EventKeeps(Played(events[..n], orders[..n]), events[n], orders[n]);
    }
  }

  // ---- causes --------------------------------------------------------------------------------

  /** Slot p of the change that just arrived was settled as s: inline, or refused in its turn. */
  ghost predicate SettledOnArrival(w: World, wire: ChangedWire, p: Place, s: Slot) {
    && p.change == |w.a.wires| && p.slot < |wire.reps|
    && var rep := wire.reps[p.slot];
       if IsChunked(rep)
       then RefusedInTurn(w, wire, p.slot, s.dropped) && s == InitialSlot(rep).(dropped := s.dropped)
       else s == InitialSlot(rep)
  }

  ghost predicate RefusedInTurn(w: World, wire: ChangedWire, slot: nat, refused: Option<ErrorCode>) {
    refused.Some? && exists k :: TurnOf(wire, slot, k) && refused == RefusalAt(w, wire, k)
  }

  ghost predicate TurnOf(wire: ChangedWire, slot: nat, k: int) {
    0 <= k < |ChunkedSlots(wire.reps)| && ChunkedSlots(wire.reps)[k] == slot
  }

  /** Whether the k-th stream of an arriving change is refused, after the turns before it. */
  ghost function RefusalAt(w: World, wire: ChangedWire, k: nat): Option<ErrorCode>
    requires k < |ChunkedSlots(wire.reps)|
  {
    var opening, slots := World(Opened(w.a, wire), w.streams), ChunkedSlots(wire.reps);
    RefusalOf(Turns(opening, |w.a.wires|, slots[..k]), |w.a.wires|, slots[k])
  }

  /** What a slot is settled with: the outcome of the stream it owned, or what was known on arrival. */
  ghost predicate Cause(w: World, e: Event, p: Place, s: Slot) {
    match e
    case Changed(wire) => SettledOnArrival(w, wire, p, s)
    case Chunk(c) =>
      && c.repId in w.a.owner && w.a.owner[c.repId] == p && SlotOf(w.a, p).Some?
      && var o := ChunkStep(w.streams, c).1; o.Some? && s == FilledBy(SlotOf(w.a, p).value, o.value)
    case TimedOut(id) => GivenUp(w, id, RepTimeout, p, s)
    case Aborting(code) => exists id :: GivenUp(w, id, code, p, s)
  }

  ghost predicate GivenUp(w: World, id: RepId, code: ErrorCode, p: Place, s: Slot) {
    && id in w.streams && id in w.a.owner && w.a.owner[id] == p && SlotOf(w.a, p).Some?
    && s == SlotOf(w.a, p).value.(dropped := Some(code))
  }

  // ---- every settled slot has its cause ------------------------------------------------------

  lemma TurnFillsOne(w: World, n: nat, i: nat, p: Place)
    ensures SlotOf(Turn(w, n, i).a, p)
         == if p == Place(n, i) && RefusalOf(w, n, i).Some? && SlotOf(w.a, p).Some?
            then Some(SlotOf(w.a, p).value.(dropped := RefusalOf(w, n, i))) else SlotOf(w.a, p)
  {
    if MayTurn(w, n, i) && RefusalOf(w, n, i).Some? {
      SettleFillsOne(w.a, Place(n, i), SlotAt(w.a, Place(n, i)).(dropped := RefusalOf(w, n, i)), p);
    }
  }

  /** After k turns a slot is as it was, or had one of those turns and was refused in it. */
  ghost predicate FilledInTurn(w: World, n: nat, slots: seq<nat>, k: nat, p: Place, s: Option<Slot>) {
    || s == SlotOf(w.a, p)
    || exists j :: DroppedInTurn(w, n, slots, k, j, p, s)
  }

  ghost predicate DroppedInTurn(w: World, n: nat, slots: seq<nat>, k: nat, j: int, p: Place, s: Option<Slot>) {
    && 0 <= j < k <= |slots| && p == Place(n, slots[j]) && SlotOf(w.a, p).Some?
    && var refused := RefusalOf(Turns(w, n, slots[..j]), n, slots[j]);
       refused.Some? && s == Some(SlotOf(w.a, p).value.(dropped := refused))
  }

  lemma {:induction false} TurnsFillTheirs(w: World, n: nat, slots: seq<nat>, k: nat, p: Place)
    requires Ascending(slots) && k <= |slots|
    ensures FilledInTurn(w, n, slots, k, p, SlotOf(Turns(w, n, slots[..k]).a, p))
  {
    hide SlotOf, RefusalOf, Turn;
    if k > 0 {
      TurnsFillTheirs(w, n, slots, k - 1, p);
      assert slots[..k][..k - 1] == slots[..k - 1];
      var before := Turns(w, n, slots[..k - 1]);
      TurnFillsOne(before, n, slots[k - 1], p);
      var s, after := SlotOf(before.a, p), SlotOf(Turn(before, n, slots[k - 1]).a, p);
      if s != SlotOf(w.a, p) {
        var j :| DroppedInTurn(w, n, slots, k - 1, j, p, s);
        assert slots[j] < slots[k - 1];
        assert DroppedInTurn(w, n, slots, k, j, p, after);
      } else if after != s {
        assert DroppedInTurn(w, n, slots, k, k - 1, p, after);
      }
    }
  }

  lemma NoSlotsYet(w: World, p: Place)
    requires Good(w)
    ensures p.change >= |w.a.wires| ==> SlotOf(w.a, p).None?
  {
    if p.change in w.a.pending {
      PendingBelowNext(w.a, w.streams, p.change);
    }
    assert Ledger(w.a);
    EmittedBelow(w.a.emitted, p.change, |w.a.wires|);
  }

  lemma NewSlots(w: World, wire: ChangedWire, p: Place)
    requires Good(w)
    ensures p.change >= |w.a.wires| ==> SlotOf(w.a, p).None?
    ensures var now := if ChunkedSlots(wire.reps) == [] then EmittedNow(w.a, wire) else Opened(w.a, wire);
            SlotOf(now, p)
            == if p.change != |w.a.wires| then SlotOf(w.a, p)
               else if p.slot < |wire.reps| then Some(InitialSlot(wire.reps[p.slot])) else None
  {
    NoSlotsYet(w, p);
    NextIsNew(w.a, w.streams);
    hide Good, ChunkedSlots;
    SlotsOfNew(w.a, wire, p);
  }

  lemma SlotsOfNew(a: Assembly, wire: ChangedWire, p: Place)
    requires |a.wires| !in a.pending
    ensures var initial := if p.slot < |wire.reps| then Some(InitialSlot(wire.reps[p.slot])) else None;
            && SlotOf(EmittedNow(a, wire), p) == (if p.change != |a.wires| then SlotOf(a, p) else initial)
            && SlotOf(Opened(a, wire), p) == (if p.change != |a.wires| then SlotOf(a, p) else initial)
  {
    hide InitialSlot, ChunkedSlots;
    EmissionAppend(a.emitted, Emission(|a.wires|, wire, InitialSlots(wire.reps)), p.change);
  }

  lemma {:induction false} EmittedBelow(emitted: seq<Emission>, n: nat, bound: nat)
    requires forall i :: 0 <= i < |emitted| ==> emitted[i].change < bound
    ensures n >= bound ==> EmissionOf(emitted, n).None?
  {
    if emitted != [] {
      EmittedBelow(emitted[..|emitted| - 1], n, bound);
    }
  }

  lemma ArrivalSettles(w: World, wire: ChangedWire, p: Place)
    requires Good(w)
    ensures var before, after := SlotOf(w.a, p), SlotOf(ChangedEffect(w, wire).a, p);
            && (before.Some? ==> after == before)
            && (after.Some? && Settled(after.value) && before.None? ==> SettledOnArrival(w, wire, p, after.value))
  {
    hide Good, SlotOf, RefusalOf;
    NewSlots(w, wire, p);
    var slots, n := ChunkedSlots(wire.reps), |w.a.wires|;
    if slots != [] {
      var opening := World(Opened(w.a, wire), w.streams);
      TurnsFillTheirs(opening, n, slots, |slots|, p);
      assert slots[..|slots|] == slots;
      var after := SlotOf(Turns(opening, n, slots).a, p);
      if after != SlotOf(opening.a, p) {
        var j :| DroppedInTurn(opening, n, slots, |slots|, j, p, after);
        assert slots[j] in slots;
        assert TurnOf(wire, p.slot, j) && after.value.dropped == RefusalAt(w, wire, j);
      }
    }
    hide Turns, RefusalAt;
  }

  lemma OwnedIsUnsettled(w: World, id: RepId)
    requires Good(w) && id in w.streams
    ensures id in w.a.owner && SlotOf(w.a, w.a.owner[id]).Some? && Unsettled(SlotOf(w.a, w.a.owner[id]).value)
  {
    hide Good;
    OwnerExists(w, id);
    OwnedSlot(w.a, w.a.owner[id]);
  }

  /**
   * One event never changes a slot that is settled, and settles a slot only for a cause of that
   * slot's own: its inline bytes, the refusal of its stream, or the outcome of its stream.
   */
  lemma EventSettles(w: World, e: Event, order: seq<RepId>, p: Place)
    requires Good(w) && OrderFits(w, e, order)
    ensures var before, after := SlotOf(w.a, p), SlotOf(EventEffect(w, e, order).a, p);
            && (before.Some? && Settled(before.value) ==> after == before)
            && (after.Some? && Settled(after.value) && after != before ==> Cause(w, e, p, after.value))
  {
    hide Good, SlotOf, ChunkEffect, AbortEffect, AbortsEffect, ChangedEffect, SettledOnArrival, FilledBy, ChunkStep;
    match e
    case Changed(wire) =>
      ArrivalSettles(w, wire, p);
    case Chunk(c) =>
      ChunkFillsOne(w, c, p);
      if ChunkStep(w.streams, c).1.Some? {
        OutcomeOfChunk(w.streams, c);
        OwnedIsUnsettled(w, c.repId);
      }
    case TimedOut(id) =>
      AbortSettles(w, id, p);
    case Aborting(code) =>
      AbortsSettle(w, order, code, p);
  }

  lemma AbortSettles(w: World, id: RepId, p: Place)
    requires Good(w)
    ensures var before, after := SlotOf(w.a, p), SlotOf(AbortEffect(w, id, RepTimeout).a, p);
            && (before.Some? && Settled(before.value) ==> after == before)
            && (after.Some? && after != before ==> GivenUp(w, id, RepTimeout, p, after.value))
  {
    hide Good, SlotOf, OutcomeEffect;
    if id in w.streams {
      OwnedIsUnsettled(w, id);
      AbortFillsOne(w, id, RepTimeout, p);
    }
  }

  lemma AbortsSettle(w: World, order: seq<RepId>, code: ErrorCode, p: Place)
    requires Good(w) && Enumerates(order, w.streams)
    ensures var before, after := SlotOf(w.a, p), SlotOf(AbortsEffect(w, order, code).a, p);
            && (before.Some? && Settled(before.value) ==> after == before)
            && (after.Some? && after != before ==> exists id :: GivenUp(w, id, code, p, after.value))
  {
    hide Good, SlotOf, AbortsEffect;
    AbortsFillTheirs(w, order, code, p);
    if OwnedAmong(w, order, p) {
      var id :| id in order && id in w.a.owner && w.a.owner[id] == p;
      OwnedIsUnsettled(w, id);
      assert GivenUp(w, id, code, p, SlotOf(AbortsEffect(w, order, code).a, p).value);
    }
  }

  /** Slot p was settled as s by event k, and not before. */
  ghost predicate CausedBy(events: seq<Event>, orders: seq<seq<RepId>>, k: int, p: Place, s: Slot)
    requires |orders| == |events|
  {
    && 0 <= k < |events|
    && var w := Played(events[..k], orders[..k]);
       Cause(w, events[k], p, s) && (SlotOf(w.a, p).Some? ==> Unsettled(SlotOf(w.a, p).value))
  }

  lemma SlotsSettleOrWait(w: World, p: Place)
    requires Good(w) && SlotOf(w.a, p).Some?
    ensures Settled(SlotOf(w.a, p).value) || Unsettled(SlotOf(w.a, p).value)
  {
    hide Good, EmissionOf, SlotFits;
    if p.change in w.a.pending {
      PendingFits(w, p.change);
      var change := w.a.pending[p.change];
      FitsSettleOrWait(change.slots[p.slot], change.wire.reps[p.slot]);
    } else {
      EmittedFits(w, p.change);
      var e := EmissionOf(w.a.emitted, p.change).value;
      FitsSettleOrWait(e.slots[p.slot], e.wire.reps[p.slot]);
    }
  }

  lemma FitsSettleOrWait(s: Slot, rep: WireRep)
    requires SlotFits(s, rep)
    ensures Settled(s) || Unsettled(s)
  {
  }

  lemma PendingFits(w: World, n: nat)
    requires Good(w) && n in w.a.pending
    ensures SlotsFit(w.a.pending[n].slots, w.a.pending[n].wire)
  {
    hide Linked, Ledger, SlotsFit, Owned;
    assert ChangeSound(w.a, n, {});
  }

  lemma EmittedFits(w: World, n: nat)
    requires Good(w)
    ensures var e := EmissionOf(w.a.emitted, n); e.Some? ==> SlotsFit(e.value.slots, e.value.wire)
  {
    hide Linked, ChangeSound, SlotsFit, EmissionOf, EmittedIn;
    assert Ledger(w.a);
    EmissionIsThere(w.a.emitted, n);
  }

  lemma {:induction false} EmissionIsThere(emitted: seq<Emission>, n: nat)
    ensures EmissionOf(emitted, n).Some? ==>
              exists i :: 0 <= i < |emitted| && emitted[i] == EmissionOf(emitted, n).value
  {
    if emitted != [] {
      EmissionIsThere(emitted[..|emitted| - 1], n);
      if EmissionOf(emitted[..|emitted| - 1], n).Some? {
        var i :| 0 <= i < |emitted| - 1 && emitted[..|emitted| - 1][i] == EmissionOf(emitted[..|emitted| - 1], n).value;
        assert emitted[i] == EmissionOf(emitted[..|emitted| - 1], n).value;
      }
    }
  }

  /**
   * Over any run, what a slot holds was put there by exactly one event, for a cause of its own:
   * nothing is dropped without its stream having been refused or ended, nothing resolved without
   * its bytes having arrived.
   */
  lemma {:induction false} SettledSlotsHaveCauses(events: seq<Event>, orders: seq<seq<RepId>>, p: Place)
    requires OrdersFit(events, orders)
    requires SlotOf(Played(events, orders).a, p).Some? && Settled(SlotOf(Played(events, orders).a, p).value)
    ensures exists k :: CausedBy(events, orders, k, p, SlotOf(Played(events, orders).a, p).value)
  {
    hide Good, SlotOf, Cause, EventEffect;
    NothingHeldYet(p);
    var n := |events| - 1;
    OrdersFitPrefix(events, orders, n);
    RunsAreGood(events[..n], orders[..n]);
    var w, s := Played(events[..n], orders[..n]), SlotOf(Played(events, orders).a, p).value;
    EventSettles(w, events[n], orders[n], p);
    if SlotOf(w.a, p).Some? {
      SlotsSettleOrWait(w, p);
    }
    if SlotOf(w.a, p).Some? && Settled(SlotOf(w.a, p).value) {
      SettledSlotsHaveCauses(events[..n], orders[..n], p);
      var k :| CausedBy(events[..n], orders[..n], k, p, s);
      assert events[..n][..k] == events[..k] && orders[..n][..k] == orders[..k];
      assert CausedBy(events, orders, k, p, s);
    } else {
      assert CausedBy(events, orders, n, p, s);
    }
  }

  lemma NothingHeldYet(p: Place)
    ensures SlotOf(NEW_WORLD.a, p).None?
  {
  }

  lemma OrdersFitPrefix(events: seq<Event>, orders: seq<seq<RepId>>, n: nat)
    requires OrdersFit(events, orders) && n <= |events|
    ensures OrdersFit(events[..n], orders[..n])
  {
    assert forall k :: 0 <= k < n ==> events[..n][..k] == events[..k] && orders[..n][..k] == orders[..k];
  }

  /** Once settled, a slot keeps what it holds for the rest of the run. */
  lemma {:induction false} SettledSlotsStay(events: seq<Event>, orders: seq<seq<RepId>>, m: nat, p: Place)
    requires OrdersFit(events, orders) && m <= |events|
    requires var s := SlotOf(Played(events[..m], orders[..m]).a, p); s.Some? && Settled(s.value)
    ensures SlotOf(Played(events, orders).a, p) == SlotOf(Played(events[..m], orders[..m]).a, p)
  {
    hide SlotOf, Played;
    if m == |events| {
      assert events[..m] == events && orders[..m] == orders;
    } else {
      var n := |events| - 1;
      OrdersFitPrefix(events, orders, n);
      assert events[..n][..m] == events[..m] && orders[..n][..m] == orders[..m];
      SettledSlotsStay(events[..n], orders[..n], m, p);
      LastEventKeeps(events, orders, p);
    }
  }

  lemma LastEventKeeps(events: seq<Event>, orders: seq<seq<RepId>>, p: Place)
    requires OrdersFit(events, orders) && events != []
    ensures var n := |events| - 1;
            var s := SlotOf(Played(events[..n], orders[..n]).a, p);
            s.Some? && Settled(s.value) ==> SlotOf(Played(events, orders).a, p) == s
  {
    hide Good, SlotOf, Cause, EventEffect;
    var n := |events| - 1;
    OrdersFitPrefix(events, orders, n);
    RunsAreGood(events[..n], orders[..n]);
    EventSettles(Played(events[..n], orders[..n]), events[n], orders[n], p);
  }

  lemma {:induction false} EmittedSlot(emitted: seq<Emission>, i: nat)
    requires i < |emitted| && forall j, k :: 0 <= j < k < |emitted| ==> emitted[j].change != emitted[k].change
    ensures EmissionOf(emitted, emitted[i].change) == Some(emitted[i])
  {
    if i < |emitted| - 1 {
      EmittedSlot(emitted[..|emitted| - 1], i);
    }
  }

  /** So every representation in an emission, and every one dropped from it, has its cause. */
  lemma EmissionsHaveCauses(events: seq<Event>, orders: seq<seq<RepId>>, i: nat, slot: nat)
    requires OrdersFit(events, orders) && i < |Played(events, orders).a.emitted|
    requires var e := Played(events, orders).a.emitted[i]; slot < |e.slots| && Settled(e.slots[slot])
    ensures var e := Played(events, orders).a.emitted[i];
            && e.change < |WiresIn(events)| && e.wire == WiresIn(events)[e.change]
            && exists k :: CausedBy(events, orders, k, Place(e.change, slot), e.slots[slot])
  {
    RunsAreGood(events, orders);
    var a := Played(events, orders).a;
    assert Ledger(a);
    EmittedSlot(a.emitted, i);
    SettledSlotsHaveCauses(events, orders, Place(a.emitted[i].change, slot));
  }

  lemma OneMoreEvent(events: seq<Event>, orders: seq<seq<RepId>>, e: Event, order: seq<RepId>)
    requires OrdersFit(events, orders) && OrderFits(Played(events, orders), e, order)
    ensures OrdersFit(events + [e], orders + [order])
    ensures Played(events + [e], orders + [order]) == EventEffect(Played(events, orders), e, order)
  {
    var n := |events|;
    assert (events + [e])[..n] == events && (orders + [order])[..n] == orders;
    assert forall k :: 0 <= k < n ==> (events + [e])[..k] == events[..k] && (orders + [order])[..k] == orders[..k];
  }
}
