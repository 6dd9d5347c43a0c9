/** The agent splits large representations into chunks; the host rebuilds them from any interleaving. */
module Chunker {
  import opened Domain
  import opened Reassembler

  // ---- splitting -----------------------------------------------------------------------------

  ghost predicate IsSplit(parts: seq<Bytes>, bytes: Bytes, size: nat) {
    && Flatten(parts) == bytes
    && (forall k :: 0 <= k < |parts| ==> 0 < |parts[k]| <= size)
    && (forall k :: 0 <= k < |parts| - 1 ==> |parts[k]| == size)
  }

  /** Slices of at most `size` bytes, in order, that concatenate to the original. */
  method Split(bytes: Bytes, size: nat) returns (out: seq<Bytes>)
    requires size > 0
    ensures IsSplit(out, bytes, size)
  {
    out := [];
    var offset := 0;
    while offset < |bytes|
      invariant 0 <= offset <= |bytes| && Flatten(out) == bytes[..offset]
      invariant forall k :: 0 <= k < |out| ==> 0 < |out[k]| <= size
      invariant forall k :: 0 <= k < |out| - 1 ==> |out[k]| == size
      invariant offset < |bytes| ==> forall k :: 0 <= k < |out| ==> |out[k]| == size
    {
      var end := if offset + size < |bytes| then offset + size else |bytes|;
      FlattenAppend(out, bytes[offset..end]);
      assert bytes[..end] == bytes[..offset] + bytes[offset..end];
      out := out + [bytes[offset..end]];
      offset := end;
    }
    assert bytes[..|bytes|] == bytes;
  }

  // ---- one representation on the wire --------------------------------------------------------

  datatype Prepared = Prepared(rep: WireRep, payloads: seq<Bytes>)

  /** Under the threshold the bytes ride inline; otherwise they follow as a stream. */
  method Prepare(mime: string, uti: Option<string>, bytes: Bytes, repId: RepId) returns (p: Prepared)
    ensures p.rep.mime == mime && p.rep.uti == uti
    ensures p.rep.byteLength == |bytes| && p.rep.sha256 == HashOf(bytes)
    ensures if |bytes| < CHUNK_THRESHOLD_BYTES
            then p.rep.inline == Some(bytes) && p.rep.repId == None && p.payloads == []
            else p.rep.inline == None && p.rep.repId == Some(repId)
                 && p.payloads != [] && IsSplit(p.payloads, bytes, CHUNK_PAYLOAD_BYTES)
                 && Original(repId, p) == Completed(repId, ResolvedRep(mime, uti, bytes, |bytes|, HashOf(bytes)))
                 && (|bytes| <= MAX_REP_BYTES ==> Ready(p))
  {
    if |bytes| < CHUNK_THRESHOLD_BYTES {
      return Prepared(WireRep(mime, uti, |bytes|, HashOf(bytes), Some(bytes), None), []);
    }
    var payloads := Split(bytes, CHUNK_PAYLOAD_BYTES);
    p := Prepared(WireRep(mime, uti, |bytes|, HashOf(bytes), None, Some(repId)), payloads);
  }

  /** The chunk a stream emits at position k. */
  function ChunkAt(repId: RepId, payloads: seq<Bytes>, k: nat): ChunkIn
    requires k < |payloads|
  {
    ChunkIn(repId, k, k == |payloads| - 1, Some(payloads[k]))
  }

  // ---- any interleaving ----------------------------------------------------------------------

  /** A stream is declared, or the next chunk of a declared stream goes out. */
  datatype Move = Open(repId: RepId, cargo: Prepared) | Next(repId: RepId)

  datatype Sending = Sending(cargo: Prepared, sent: nat)

  /** The agent: the streams it is sending, and what the finished ones carried in order of their last chunks. */
  datatype Sender = Sender(underway: map<RepId, Sending>, finished: seq<Outcome>)

  /** The host: its open streams and everything its consumer was told. */
  datatype Receiver = Receiver(streams: Streams, outcomes: seq<Outcome>)

  /** The declaration and the chunks belong together, and the host's limit on one representation is met. */
  ghost predicate Ready(p: Prepared) {
    && p.rep.byteLength <= MAX_REP_BYTES
    && |Flatten(p.payloads)| == p.rep.byteLength && HashOf(Flatten(p.payloads)) == p.rep.sha256
  }

  /** In order within a stream, at most eight streams at a time; an id is free again once its stream ended. */
  ghost predicate Allowed(s: Sender, m: Move) {
    match m
    case Open(id, p) =>
      id !in s.underway && |s.underway| < MAX_CONCURRENT_REP_STREAMS && p.payloads != [] && Ready(p)
    case Next(id) => id in s.underway
  }

  /** The original, as the host is to resolve it. */
  function Original(id: RepId, p: Prepared): Outcome {
    var bytes := Flatten(p.payloads);
    Completed(id, ResolvedRep(p.rep.mime, p.rep.uti, bytes, |bytes|, HashOf(bytes)))
  }

  function SendStep(s: Sender, m: Move): Sender {
    match m
    case Open(id, p) => s.(underway := s.underway[id := Sending(p, 0)])
    case Next(id) =>
      if id !in s.underway then s
      else
        var Sending(p, n) := s.underway[id];
        if n + 1 < |p.payloads| then s.(underway := s.underway[id := Sending(p, n + 1)])
        else Sender(s.underway - {id}, s.finished + [Original(id, p)])
  }

  function Told(r: Receiver, step: (Streams, Option<Outcome>)): Receiver {
    Receiver(step.0, if step.1.Some? then r.outcomes + [step.1.value] else r.outcomes)
  }

  /** The host hears the line that the sender's move puts on the wire. */
  function ReceiveStep(r: Receiver, s: Sender, m: Move): Receiver {
    match m
    case Open(id, p) => Told(r, DeclareStep(r.streams, p.rep, id))
    case Next(id) =>
      if id in s.underway && s.underway[id].sent < |s.underway[id].cargo.payloads|
      then Told(r, ChunkStep(r.streams, ChunkAt(id, s.underway[id].cargo.payloads, s.underway[id].sent)))
      else r
  }

  function Sent(moves: seq<Move>): Sender {
    if moves == [] then Sender(map[], []) else SendStep(Sent(moves[..|moves| - 1]), moves[|moves| - 1])
  }

  function Received(moves: seq<Move>): Receiver {
    if moves == [] then Receiver(map[], [])
    else
      var earlier := moves[..|moves| - 1];
      ReceiveStep(Received(earlier), Sent(earlier), moves[|moves| - 1])
  }

  ghost predicate Schedule(moves: seq<Move>) {
    moves != [] ==> Schedule(moves[..|moves| - 1]) && Allowed(Sent(moves[..|moves| - 1]), moves[|moves| - 1])
  }

  /** The originals of all streams declared so far. */
  function Declared(moves: seq<Move>): seq<Outcome> {
    if moves == [] then []
    else
      var earlier, m := Declared(moves[..|moves| - 1]), moves[|moves| - 1];
      if m.Open? then earlier + [Original(m.repId, m.cargo)] else earlier
  }

  /** A stream that has delivered n of its chunks. */
  function Partial(p: Prepared, n: nat): Stream
    requires n <= |p.payloads|
  {
    Stream(p.rep.mime, p.rep.uti, p.rep.byteLength, p.rep.sha256, p.payloads[..n], |Flatten(p.payloads[..n])|, n)
  }

  /** The host has exactly the agent's streams, each as far as it was sent, and was told of the finished ones. */
  ghost predicate Mirrors(r: Receiver, s: Sender) {
    && r.outcomes == s.finished && r.streams.Keys == s.underway.Keys
    && forall id :: id in s.underway ==>
         var Sending(p, n) := s.underway[id];
         n < |p.payloads| && Ready(p) && r.streams[id] == Partial(p, n)
  }

  /** How often this original is still on its way: once or not at all. */
  function OnItsWay(s: Sender, o: Outcome): nat {
    if o.repId in s.underway && o == Original(o.repId, s.underway[o.repId].cargo) then 1 else 0
  }

  lemma {:induction false} FlattenPrefix(parts: seq<Bytes>, n: nat)
    requires n <= |parts|
    ensures |Flatten(parts[..n])| <= |Flatten(parts)|
  {
    if n == |parts| {
      assert parts[..n] == parts;
    } else {
      assert parts[..|parts| - 1][..n] == parts[..n];
      FlattenPrefix(parts[..|parts| - 1], n);
    }
  }

  /** One chunk of a stream, delivered in its turn, is never refused. */
  lemma InTurn(streams: Streams, id: RepId, p: Prepared, n: nat)
    requires id in streams && n < |p.payloads| && streams[id] == Partial(p, n) && Ready(p)
    ensures ChunkStep(streams, ChunkAt(id, p.payloads, n))
         == if n + 1 < |p.payloads| then (streams[id := Partial(p, n + 1)], None)
            else (streams - {id}, Some(Original(id, p)))
  {
    hide Flatten, Partial, ChunkAt, Grown, FinalStep;
    GrownPartial(p, n);
    if n + 1 == |p.payloads| {
      WholePartial(streams, id, p);
    }
    ChunkFits(streams, id, p, n);
  }

  /** What the next chunk makes of a stream in step. */
  lemma GrownPartial(p: Prepared, n: nat)
    requires n < |p.payloads| && Ready(p)
    ensures Grown(Partial(p, n), p.payloads[n]) == Partial(p, n + 1)
    ensures Partial(p, n).receivedBytes + |p.payloads[n]| <= p.rep.byteLength
  {
    FlattenAppend(p.payloads[..n], p.payloads[n]);
    assert p.payloads[..n + 1] == p.payloads[..n] + [p.payloads[n]];
    FlattenPrefix(p.payloads, n + 1);
    hide Flatten;
  }

  lemma WholePartial(streams: Streams, id: RepId, p: Prepared)
    requires Ready(p)
    ensures FinalStep(streams, id, Partial(p, |p.payloads|)) == (streams - {id}, Some(Original(id, p)))
  {
    hide Flatten;
    assert p.payloads[..|p.payloads|] == p.payloads;
  }

  lemma ChunkFits(streams: Streams, id: RepId, p: Prepared, n: nat)
    requires id in streams && n < |p.payloads| && streams[id] == Partial(p, n) && Ready(p)
    requires Partial(p, n).receivedBytes + |p.payloads[n]| <= p.rep.byteLength
    ensures ChunkStep(streams, ChunkAt(id, p.payloads, n))
         == var grown := Grown(Partial(p, n), p.payloads[n]);
            if n + 1 < |p.payloads| then (streams[id := grown], None) else FinalStep(streams, id, grown)
  {
    hide Flatten, FinalStep;
  }

  lemma MirrorsNext(r: Receiver, s: Sender, m: Move)
    requires Mirrors(r, s) && Allowed(s, m)
    ensures Mirrors(ReceiveStep(r, s, m), SendStep(s, m))
  {
    match m
    case Open(id, p) =>
      assert |r.streams.Keys| == |r.streams| && |s.underway.Keys| == |s.underway|;
      assert NewStream(p.rep) == Partial(p, 0);
    case Next(id) =>
      InTurn(r.streams, id, s.underway[id].cargo, s.underway[id].sent);
  }

  lemma {:induction false} ReceivedMirrorsSent(moves: seq<Move>)
    requires Schedule(moves)
    ensures Mirrors(Received(moves), Sent(moves))
  {
    if moves != [] {
      var earlier := moves[..|moves| - 1];
      ReceivedMirrorsSent(earlier);
      MirrorsNext(Received(earlier), Sent(earlier), moves[|moves| - 1]);
    }
  }

  /** Of every original: declared as often as finished, plus once more while it is on its way. */
  lemma {:induction false} EachIsFinishedOnce(moves: seq<Move>, o: Outcome)
    requires Schedule(moves)
    ensures multiset(Declared(moves))[o] == multiset(Sent(moves).finished)[o] + OnItsWay(Sent(moves), o)
  {
    if moves != [] {
      hide Allowed, SendStep, OnItsWay, Original;
      var earlier, m := moves[..|moves| - 1], moves[|moves| - 1];
      EachIsFinishedOnce(earlier, o);
      FinishStep(Sent(earlier), m, o);
      if m.Open? {
        CountAppend(Declared(earlier), Original(m.repId, m.cargo), o);
      }
    }
  }

  lemma CountAppend(outcomes: seq<Outcome>, one: Outcome, o: Outcome)
    ensures multiset(outcomes + [one])[o] == multiset(outcomes)[o] + (if one == o then 1 else 0)
  {
  }

  lemma FinishStep(s: Sender, m: Move, o: Outcome)
    requires Allowed(s, m)
    ensures var x := SendStep(s, m);
            multiset(x.finished)[o] + OnItsWay(x, o)
            == multiset(s.finished)[o] + OnItsWay(s, o) + (if m.Open? && Original(m.repId, m.cargo) == o then 1 else 0)
  {
    if m.Next? {
      CountAppend(s.finished, Original(m.repId, s.underway[m.repId].cargo), o);
    }
    hide Ready;
  }

  /**
   * Round trip. Declarations and chunks come in any order that keeps each stream's own order, with at most
   * eight streams at a time; ids may be used again. The consumer is told exactly the originals, byte for
   * byte, in the order of their last chunks: each once, none while it is on its way, nothing aborted.
   * Nothing stays open that the agent is not still sending, and at no moment are the bounds exceeded.
   */
  lemma AnyInterleavingRebuildsEachOnce(moves: seq<Move>)
    requires Schedule(moves)
    ensures Received(moves).outcomes == Sent(moves).finished
    ensures Received(moves).streams.Keys == Sent(moves).underway.Keys
    ensures forall o ::
              multiset(Declared(moves))[o] == multiset(Received(moves).outcomes)[o] + OnItsWay(Sent(moves), o)
    ensures Sent(moves).underway == map[] ==> multiset(Received(moves).outcomes) == multiset(Declared(moves))
    ensures forall k :: 0 <= k <= |moves| ==> Bounded(Received(moves[..k]).streams)
  {
    hide Schedule, Declared, Received, Sent, Bounded, OnItsWay;
    ReceivedMirrorsSent(moves);
    forall o
      ensures multiset(Declared(moves))[o] == multiset(Received(moves).outcomes)[o] + OnItsWay(Sent(moves), o)
    {
      EachIsFinishedOnce(moves, o);
    }
    forall k | 0 <= k <= |moves|
      ensures Bounded(Received(moves[..k]).streams)
    {
      ReceivedStaysBounded(moves[..k]);
    }
    if Sent(moves).underway == map[] {
      forall o
        ensures multiset(Received(moves).outcomes)[o] == multiset(Declared(moves))[o]
      {
        NothingOnItsWay(Sent(moves), o);
      }
    }
  }

  lemma NothingOnItsWay(s: Sender, o: Outcome)
    requires s.underway == map[]
    ensures OnItsWay(s, o) == 0
  {
  }

  /** The host's bounds do not depend on the agent keeping to a schedule. */
  lemma {:induction false} ReceivedStaysBounded(moves: seq<Move>)
    ensures Bounded(Received(moves).streams)
  {
    if moves != [] {
      var earlier, m := moves[..|moves| - 1], moves[|moves| - 1];
      ReceivedStaysBounded(earlier);
      match m
      case Open(id, p) => DeclareKeepsBounds(Received(earlier).streams, p.rep, id);
      case Next(id) =>
        if id in Sent(earlier).underway {
          var Sending(p, n) := Sent(earlier).underway[id];
          if n < |p.payloads| {
            ChunkKeepsBounds(Received(earlier).streams, ChunkAt(id, p.payloads, n));
          }
        }
    }
  }

  // ---- what the agent emits ------------------------------------------------------------------

  datatype OutStream = OutStream(repId: RepId, cargo: Prepared)

  function ChunksOf(st: OutStream): seq<ChunkIn> {
    seq(|st.cargo.payloads|, k requires 0 <= k < |st.cargo.payloads| => ChunkAt(st.repId, st.cargo.payloads, k))
  }

  function AllChunks(streams: seq<OutStream>): seq<ChunkIn> {
    if streams == [] then [] else AllChunks(streams[..|streams| - 1]) + ChunksOf(streams[|streams| - 1])
  }

  /** Every chunk of every stream: one stream after the other, numbered from 0, the last one marked. */
  method Emit(streams: seq<OutStream>) returns (out: seq<ChunkIn>)
    ensures out == AllChunks(streams)
  {
    out := [];
    for i := 0 to |streams|
      invariant out == AllChunks(streams[..i])
    {
      var st := streams[i];
      var payloads := st.cargo.payloads;
      ghost var done := out;
      for k := 0 to |payloads|
        invariant out == done + ChunksOf(st)[..k]
      {
        out := out + [ChunkIn(st.repId, k, k == |payloads| - 1, Some(payloads[k]))];
      }
      assert ChunksOf(st)[..|payloads|] == ChunksOf(st);
      assert streams[..i + 1][..i] == streams[..i];
    }
    assert streams[..|streams|] == streams;
  }

  /** The chunk that this move puts on the wire, if it does. */
  function LineOf(s: Sender, m: Move): seq<ChunkIn> {
    if m.Next? && m.repId in s.underway && s.underway[m.repId].sent < |s.underway[m.repId].cargo.payloads|
    then [ChunkAt(m.repId, s.underway[m.repId].cargo.payloads, s.underway[m.repId].sent)]
    else []
  }

  function Lines(moves: seq<Move>): seq<ChunkIn> {
    if moves == [] then []
    else Lines(moves[..|moves| - 1]) + LineOf(Sent(moves[..|moves| - 1]), moves[|moves| - 1])
  }

  function Opens(streams: seq<OutStream>): seq<Move> {
    if streams == [] then []
    else
      var last := streams[|streams| - 1];
      Opens(streams[..|streams| - 1]) + [Open(last.repId, last.cargo)]
  }

  function Turns(id: RepId, n: nat): seq<Move> {
    if n == 0 then [] else Turns(id, n - 1) + [Next(id)]
  }

  function AllTurns(streams: seq<OutStream>): seq<Move> {
    if streams == [] then []
    else
      var last := streams[|streams| - 1];
      AllTurns(streams[..|streams| - 1]) + Turns(last.repId, |last.cargo.payloads|)
  }

  function Originals(streams: seq<OutStream>): seq<Outcome> {
    if streams == [] then []
    else
      var last := streams[|streams| - 1];
      Originals(streams[..|streams| - 1]) + [Original(last.repId, last.cargo)]
  }

  function Ids(streams: seq<OutStream>): set<RepId> {
    set st | st in streams :: st.repId
  }

  /** At most eight streams under different ids, each one whole. */
  ghost predicate Emittable(streams: seq<OutStream>) {
    && |streams| <= MAX_CONCURRENT_REP_STREAMS
    && (forall i, j :: 0 <= i < j < |streams| ==> streams[i].repId != streams[j].repId)
    && forall st :: st in streams ==> st.cargo.payloads != [] && Ready(st.cargo)
  }

  /** All of them declared, none begun. */
  function Opened(streams: seq<OutStream>): (u: map<RepId, Sending>)
    ensures u.Keys == Ids(streams)
  {
    if streams == [] then map[]
    else
      var init, last := streams[..|streams| - 1], streams[|streams| - 1];
      assert streams == init + [last];
      Opened(init)[last.repId := Sending(last.cargo, 0)]
  }

  lemma LastIsNew(streams: seq<OutStream>)
    requires Emittable(streams) && streams != []
    ensures Emittable(streams[..|streams| - 1]) && streams[|streams| - 1].repId !in Ids(streams[..|streams| - 1])
  {
  }

  lemma {:induction false} OpenedSize(streams: seq<OutStream>)
    requires Emittable(streams)
    ensures |Opened(streams)| == |streams|
  {
    if streams != [] {
      var init, last := streams[..|streams| - 1], streams[|streams| - 1];
      LastIsNew(streams);
      OpenedSize(init);
      assert Opened(streams).Keys == Opened(init).Keys + {last.repId};
      assert |Opened(init).Keys| == |Opened(init)| && |Opened(streams).Keys| == |Opened(streams)|;
    }
  }

  lemma {:induction false} OpenedAt(streams: seq<OutStream>, k: nat)
    requires Emittable(streams) && k < |streams|
    ensures streams[k].repId !in Ids(streams[..k])
    ensures streams[k].repId in Opened(streams) && Opened(streams)[streams[k].repId] == Sending(streams[k].cargo, 0)
  {
    if k < |streams| - 1 {
      var init := streams[..|streams| - 1];
      LastIsNew(streams);
      OpenedAt(init, k);
      assert init[..k] == streams[..k];
    }
  }

  lemma NothingTaken(streams: seq<OutStream>)
    ensures Ids(streams[..0]) == {} && Opened(streams) - {} == Opened(streams)
  {
  }

  lemma IdsNext(streams: seq<OutStream>, k: nat)
    requires k < |streams|
    ensures Ids(streams[..k + 1]) == Ids(streams[..k]) + {streams[k].repId}
  {
    assert streams[..k + 1] == streams[..k] + [streams[k]];
  }

  /** The same run, one move later. */
  lemma OneMoreMove(moves: seq<Move>, m: Move)
    ensures Sent(moves + [m]) == SendStep(Sent(moves), m)
    ensures Schedule(moves + [m]) <==> Schedule(moves) && Allowed(Sent(moves), m)
    ensures Lines(moves + [m]) == Lines(moves) + LineOf(Sent(moves), m)
  {
    assert (moves + [m])[..|moves + [m]| - 1] == moves;
  }

  lemma {:induction false} OpensRun(streams: seq<OutStream>)
    requires Emittable(streams)
    ensures Schedule(Opens(streams)) && Lines(Opens(streams)) == []
    ensures Sent(Opens(streams)) == Sender(Opened(streams), [])
  {
    if streams != [] {
      hide Schedule, Sent, Lines, Ready;
      var init, last := streams[..|streams| - 1], streams[|streams| - 1];
      LastIsNew(streams);
      OpensRun(init);
      OpenedSize(init);
      OneMoreMove(Opens(init), Open(last.repId, last.cargo));
    }
  }

  lemma NthChunk(st: OutStream, n: nat)
    requires 0 < n <= |st.cargo.payloads|
    ensures ChunksOf(st)[..n] == ChunksOf(st)[..n - 1] + [ChunkAt(st.repId, st.cargo.payloads, n - 1)]
    ensures ChunksOf(st)[..|st.cargo.payloads|] == ChunksOf(st)
  {
  }

  /** The sender once n chunks of a fresh stream have gone out. */
  function AfterTurns(s: Sender, st: OutStream, n: nat): Sender {
    if n < |st.cargo.payloads| then s.(underway := s.underway[st.repId := Sending(st.cargo, n)])
    else Sender(s.underway - {st.repId}, s.finished + [Original(st.repId, st.cargo)])
  }

  lemma TurnStep(s: Sender, st: OutStream, n: nat)
    requires n < |st.cargo.payloads|
    ensures var now := AfterTurns(s, st, n);
            && Allowed(now, Next(st.repId))
            && SendStep(now, Next(st.repId)) == AfterTurns(s, st, n + 1)
            && LineOf(now, Next(st.repId)) == [ChunkAt(st.repId, st.cargo.payloads, n)]
  {
    var now := AfterTurns(s, st, n);
    assert now.underway[st.repId] == Sending(st.cargo, n);
    assert now.underway - {st.repId} == s.underway - {st.repId};
    assert now.underway[st.repId := Sending(st.cargo, n + 1)] == s.underway[st.repId := Sending(st.cargo, n + 1)];
  }

  lemma {:induction false} TurnsRun(moves: seq<Move>, st: OutStream, n: nat)
    requires Schedule(moves) && n <= |st.cargo.payloads| && st.cargo.payloads != []
    requires st.repId in Sent(moves).underway && Sent(moves).underway[st.repId] == Sending(st.cargo, 0)
    ensures Schedule(moves + Turns(st.repId, n))
    ensures Lines(moves + Turns(st.repId, n)) == Lines(moves) + ChunksOf(st)[..n]
    ensures Sent(moves + Turns(st.repId, n)) == AfterTurns(Sent(moves), st, n)
  {
    hide Schedule, Sent, Lines, Allowed, SendStep, LineOf;
    if n == 0 {
      assert moves + Turns(st.repId, 0) == moves;
      assert Sent(moves).underway[st.repId := Sending(st.cargo, 0)] == Sent(moves).underway;
    } else {
      hide AfterTurns, ChunksOf, ChunkAt;
      TurnsRun(moves, st, n - 1);
      var earlier := moves + Turns(st.repId, n - 1);
      assert moves + Turns(st.repId, n) == earlier + [Next(st.repId)];
      OneMoreMove(earlier, Next(st.repId));
      TurnStep(Sent(moves), st, n - 1);
      NthChunk(st, n);
    }
  }

  lemma {:induction false} AllTurnsRun(streams: seq<OutStream>, k: nat)
    requires Emittable(streams) && k <= |streams|
    ensures var moves := Opens(streams) + AllTurns(streams[..k]);
            && Schedule(moves) && Lines(moves) == AllChunks(streams[..k])
            && Sent(moves) == Sender(Opened(streams) - Ids(streams[..k]), Originals(streams[..k]))
  {
    hide Schedule, Sent, Lines, ChunksOf, Ready, Opens, Turns, Opened, Ids, Original;
    var moves := Opens(streams) + AllTurns(streams[..k]);
    if k == 0 {
      OpensRun(streams);
      assert moves == Opens(streams);
      NothingTaken(streams);
    } else {
      AllTurnsRun(streams, k - 1);
      var st, earlier := streams[k - 1], Opens(streams) + AllTurns(streams[..k - 1]);
      assert streams[..k][..k - 1] == streams[..k - 1];
      OpenedAt(streams, k - 1);
      TurnsRun(earlier, st, |st.cargo.payloads|);
      assert moves == earlier + Turns(st.repId, |st.cargo.payloads|);
      NthChunk(st, |st.cargo.payloads|);
      IdsNext(streams, k - 1);
      assert Opened(streams) - Ids(streams[..k - 1]) - {st.repId} == Opened(streams) - Ids(streams[..k]);
    }
  }

  /** What `Emit` puts out after the declarations arrives: every original once, in order, and nothing stays open. */
  lemma EmittedArrives(streams: seq<OutStream>)
    requires Emittable(streams)
    ensures var moves := Opens(streams) + AllTurns(streams);
            && Schedule(moves) && Lines(moves) == AllChunks(streams)
            && Received(moves) == Receiver(map[], Originals(streams))
  {
    hide Schedule, Lines, Emittable;
    AllTurnsRun(streams, |streams|);
    assert streams[..|streams|] == streams;
    var moves := Opens(streams) + AllTurns(streams);
    AnyInterleavingRebuildsEachOnce(moves);
    assert Received(moves).streams == map[];
  }
}
