/**
 * Turns each clipboard change on the wire into one payload, held until every chunked
 * representation it declared has arrived or been given up.
 */
module ChangeAssembler {
  import opened Domain
  import opened Reassembler
  import opened ChangeAssembly
  import opened ChangeSteps

  /** The slots before any stream is opened, and which of them wait for one. */
  method FirstPass(w: ChangedWire) returns (slots: seq<Slot>, chunked: seq<nat>)
    ensures slots == InitialSlots(w.reps) && chunked == ChunkedSlots(w.reps)
  {
    slots, chunked := [], [];
    for i := 0 to |w.reps|
      invariant slots == InitialSlots(w.reps[..i]) && chunked == ChunkedSlots(w.reps[..i])
    {
      assert w.reps[..i + 1][..i] == w.reps[..i];
      var rep := w.reps[i];
      slots := slots + [InitialSlot(rep)];
      if rep.inline.None? && rep.repId.Some? {
        chunked := chunked + [i];
      }
    }
    assert w.reps[..|w.reps|] == w.reps;
  }

  class ChangeAssembler {
    const reassembler: Reassembler
    var owner: map<RepId, Place>
    var pending: map<nat, PendingChange>
    /** Everything handed on so far, in order. */
    var emitted: seq<Emission>
    var next: nat
    /** Every change so far, in order of arrival. */
    ghost var wires: seq<ChangedWire>

    ghost function View(): Assembly
      reads this
    {
      Assembly(owner, pending, emitted, wires)
    }

    ghost function Now(): World
      reads this, reassembler
    {
      World(View(), reassembler.streams)
    }

    /** Between calls: no change is half declared. */
    ghost predicate Valid()
      reads this, reassembler
    {
      reassembler.Valid() && next == |wires| && Good(Now())
    }

    constructor ()
      ensures Valid() && Now() == NEW_WORLD && fresh(reassembler)
    {
      reassembler := new Reassembler();
      owner, pending, emitted, next, wires := map[], map[], [], 0, [];
    }

    /** Fills a slot; emits the change if nothing is outstanding any more. */
    method SettleSlot(at: Place, s: Slot)
      requires PlaceExists(View(), at)
      modifies this`pending, this`emitted
      ensures View() == old(Settle(View(), at, s)) && old(emitted) <= emitted
    {
      var p := pending[at.change];
      var slots := p.slots[at.slot := s];
      if p.outstanding - 1 == 0 {
        pending := pending - {at.change};
        emitted := emitted + [Emission(at.change, p.wire, slots)];
      } else {
        pending := pending[at.change := PendingChange(slots, p.wire, p.outstanding - 1)];
      }
    }

    /** A stream has ended: the slot that owns it is settled. */
    method OnOutcome(o: Outcome)
      requires o.repId in owner ==> PlaceExists(View(), owner[o.repId])
      modifies this`owner, this`pending, this`emitted
      ensures View() == old(OutcomeEffect(View(), o)) && old(emitted) <= emitted
    {
      if o.repId !in owner {
        return;
      }
      var at := owner[o.repId];
      var s := pending[at.change].slots[at.slot];
      owner := owner - {o.repId};
      SettleSlot(at, if o.Completed? then s.(resolved := Some(o.rep)) else s.(dropped := Some(o.code)));
    }

    method HandleChunk(c: ChunkIn)
      requires Valid()
      modifies this`owner, this`pending, this`emitted, reassembler
      ensures Valid() && Now() == old(ChunkEffect(Now(), c)) && old(emitted) <= emitted
    {
      hide Good, Bounded;
      ghost var w := Now();
      ChunkKeeps(w, c);
      OutcomesAreOwned(w, c);
      var o, _ := reassembler.Chunk(c);
      if o.Some? {
        OnOutcome(o.value);
      }
      assert Now() == ChunkEffect(w, c);
    }

    /** A stream is given up: its timer fired, or everything is being aborted. */
    method AbortStream(repId: RepId, code: ErrorCode)
      requires Valid() && repId in reassembler.streams
      modifies this`owner, this`pending, this`emitted, reassembler`streams
      ensures Valid() && Now() == old(AbortEffect(Now(), repId, code)) && old(emitted) <= emitted
    {
      hide Good, Bounded;
      ghost var w := Now();
      AbortKeeps(w, repId, code);
      OwnerExists(w, repId);
      var o := reassembler.Abort(repId, code);
      OnOutcome(o.value);
      assert Now() == AbortEffect(w, repId, code);
    }

    /** The timer of a stream fires; an armed timer always belongs to an open stream. */
    method Timeout(repId: RepId)
      requires Valid()
      modifies this`owner, this`pending, this`emitted, reassembler`streams
      ensures Valid() && Now() == old(AbortEffect(Now(), repId, RepTimeout)) && old(emitted) <= emitted
    {
      hide Good;
      if repId in reassembler.streams {
        AbortStream(repId, RepTimeout);
      }
    }

    method AbortEach(code: ErrorCode) returns (ghost order: seq<RepId>)
      requires Valid()
      modifies this`owner, this`pending, this`emitted, reassembler`streams
      ensures Valid() && reassembler.streams.Keys == {}
      ensures Enumerates(order, old(reassembler.streams)) && Now() == old(AbortsEffect(Now(), order, code))
    {
      ghost var w := Now();
      order := [];
      assert w.streams == reassembler.streams;
      var rest := reassembler.streams.Keys;
      hide *;
      AbortedNone(w, code);
      while rest != {}
        invariant Valid() && AbortedSoFar(w, Now(), order, rest, code)
        decreases rest
      {
        var repId :| repId in rest;
        ghost var now := Now();
        AbortedStep(w, now, order, rest, repId, code);
        AbortStream(repId, code);
        rest, order := rest - {repId}, order + [repId];
      }
      AbortedAll(w, Now(), order, code);
    }

    /** Gives every stream up, in some order; afterwards every change so far has been emitted. */
    method AbortAll(code: ErrorCode) returns (ghost order: seq<RepId>)
      requires Valid()
      modifies this`owner, this`pending, this`emitted, reassembler`streams
      ensures Valid() && old(emitted) <= emitted
      ensures Enumerates(order, old(reassembler.streams)) && Now() == old(AbortsEffect(Now(), order, code))
      ensures reassembler.streams == map[] && pending == map[] && owner == map[]
    {
      hide Good, Bounded, Enumerates, AbortsEffect;
      ghost var w := Now();
      order := AbortEach(code);
      AbortsGrow(w, order, code);
      EmptyWorld(Now());
      pending, owner := map[], map[];
    }

    /** Opens the stream of one slot; `refused` says why it was not opened. */
    method TryOpen(rep: WireRep, repId: RepId) returns (refused: Option<ErrorCode>)
      requires reassembler.Valid()
      modifies reassembler`streams
      ensures reassembler.Valid() && refused == old(Refusal(Now(), rep, repId))
      ensures reassembler.streams
           == if refused.Some? then old(reassembler.streams) else old(reassembler.streams)[repId := NewStream(rep)]
    {
      if repId in owner {
        return Some(TooMany);
      }
      var o := reassembler.Declare(rep, repId);
      refused := if o.Some? then Some(o.value.code) else None;
    }

    /** Opens the stream of one slot, or settles the slot with the reason it was refused. */
    method DeclareSlot(n: nat, i: nat)
      requires reassembler.Valid() && PlaceExists(View(), Place(n, i))
      requires i < |pending[n].wire.reps| && pending[n].wire.reps[i].repId.Some?
      modifies this`owner, this`pending, this`emitted, reassembler`streams
      ensures reassembler.Valid() && Now() == old(Turn(Now(), n, i)) && old(emitted) <= emitted
    {
      hide Bounded;
      var rep := pending[n].wire.reps[i];
      var repId := rep.repId.value;
      var refused := TryOpen(rep, repId);
      if refused.Some? {
        SettleSlot(Place(n, i), pending[n].slots[i].(dropped := refused));
      } else {
        owner := owner[repId := Place(n, i)];
      }
    }

    /** Opens the streams of a change that has just become pending, in wire order. */
    method DeclareAll(n: nat, chunked: seq<nat>)
      requires reassembler.Valid() && Declaring(Now(), n, chunked)
      modifies this`owner, this`pending, this`emitted, reassembler`streams
      ensures reassembler.Valid() && Now() == old(Turns(Now(), n, chunked)) && old(emitted) <= emitted
    {
      hide Declaring;
      ghost var w := Now();
      for k := 0 to |chunked|
        invariant reassembler.Valid() && Now() == Turns(w, n, chunked[..k]) && old(emitted) <= emitted
      {
        NextTurn(w, n, chunked, k);
        DeclareSlot(n, chunked[k]);
      }
      assert chunked[..|chunked|] == chunked;
    }

    /** Takes in one change: emitted at once, or pending until its streams settle. */
    method HandleChanged(w: ChangedWire)
      requires Valid()
      modifies this, reassembler`streams
      ensures Valid() && Now() == old(ChangedEffect(Now(), w)) && old(emitted) <= emitted
    {
      hide Good, Turns;
      ghost var before := Now();
      ChangedKeeps(before, w);
      ChangedGrows(before, w);
      var slots, chunked := FirstPass(w);
      var n := next;
      if chunked == [] {
        emitted, next, wires := emitted + [Emission(n, w, slots)], next + 1, wires + [w];
        assert Now() == ChangedEffect(before, w);
      } else {
        StartDeclaring(before, w);
        pending, next, wires := pending[n := PendingChange(slots, w, |chunked|)], next + 1, wires + [w];
        assert Now() == World(Opened(before.a, w), before.streams);
        DeclareAll(n, chunked);
      }
    }
  }

  /** Handles one event; `order` is the order in which an abort of everything took the streams. */
  method Handle(c: ChangeAssembler, e: Event) returns (ghost order: seq<RepId>)
    requires c.Valid()
    modifies c, c.reassembler
    ensures c.Valid() && OrderFits(old(c.Now()), e, order) && c.Now() == old(EventEffect(c.Now(), e, order))
    ensures e.Aborting? ==> c.pending == map[]
  {
    hide Good, ChunkEffect, AbortEffect, AbortsEffect, ChangedEffect;
    order := [];
    match e
    case Changed(w) => c.HandleChanged(w);
    case Chunk(chunk) => c.HandleChunk(chunk);
    case TimedOut(repId) => c.Timeout(repId);
    case Aborting(code) => order := c.AbortAll(code);
  }

  /**
   * Exactly once, over any run of changes, chunks, timeouts and aborts, with reused stream ids and
   * more than eight streams: each change that arrived was emitted once, as it arrived, or still
   * waits, and every emitted payload accounts for each declared representation of its change. The
   * final state is what the events lead to step by step, so each slot has its cause
   * (`EmissionsHaveCauses`).
   */
  method Run(events: seq<Event>) returns (c: ChangeAssembler, ghost orders: seq<seq<RepId>>)
    ensures fresh(c) && c.Valid() && OrdersFit(events, orders) && c.Now() == Played(events, orders)
    ensures |c.emitted| + |c.pending| == |WiresIn(events)|
    ensures forall n: nat :: n < |WiresIn(events)| ==> (n in c.pending <==> !EmittedIn(c.emitted, n))
    ensures forall n :: n in c.pending ==> n < |WiresIn(events)| && c.pending[n].wire == WiresIn(events)[n]
    ensures forall i :: 0 <= i < |c.emitted| ==>
              && c.emitted[i].change < |WiresIn(events)|
              && c.emitted[i].wire == WiresIn(events)[c.emitted[i].change]
              && Complete(c.emitted[i])
    ensures events != [] && events[|events| - 1].Aborting? ==> |c.emitted| == |WiresIn(events)|
  {
    c := new ChangeAssembler();
    orders := [];
    assert OrdersFit([], []) && Played([], []) == NEW_WORLD;
    hide Good, EventEffect, OrdersFit;
    for i := 0 to |events|
      invariant fresh(c) && fresh(c.reassembler) && c.Valid()
      invariant |orders| == i && OrdersFit(events[..i], orders) && c.Now() == Played(events[..i], orders)
      invariant i > 0 && events[i - 1].Aborting? ==> c.pending == map[]
    {
      ghost var w := c.Now();
      ghost var order := Handle(c, events[i]);
      OneMoreEvent(events[..i], orders, events[i], order);
      assert events[..i + 1] == events[..i] + [events[i]];
      orders := orders + [order];
    }
    assert events[..|events|] == events;
    RunsAreGood(events, orders);
    EmittedOnce(c.View(), c.reassembler.streams);
    PendingAsArrived(c.View(), c.reassembler.streams);
  }
}
