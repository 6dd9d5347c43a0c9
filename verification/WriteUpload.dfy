/** The agent's side of a chunked clipboard write: one transfer at a time, checked as it arrives. */
module WriteUpload {
  import opened Domain

  /** The declared hash is text; only well-formed text names a hash. */
  datatype HashText = Names(hash: ContentHash) | Malformed

  datatype RepDecl = RepDecl(mime: string, uti: Option<string>, byteLength: int, sha256: HashText)
  datatype BeginParams = BeginParams(transferId: string, transient: bool, reps: seq<RepDecl>)
  datatype ChunkParams = ChunkParams(transferId: string, repIndex: int, seqNo: int, data: Bytes)

  datatype WrittenRep = WrittenRep(data: Bytes, mime: string, uti: Option<string>)
  datatype WriteParams = WriteParams(reps: seq<WrittenRep>, transient: bool)

  /** The clock is read up to three times in one call, and need not be monotone. */
  datatype Clock = Clock(idle: int, age: int, stamp: int)

  // ---- one call, as a function ---------------------------------------------------------------

  datatype Transfer = Transfer(
    params: BeginParams, startedAt: int, touchedAt: int, bytes: seq<Bytes>, sequences: seq<nat>)

  type State = Option<Transfer>

  datatype Call =
    | Begin(begin: BeginParams, clock: Clock)
    | Append(chunk: ChunkParams, clock: Clock)
    | Commit(commitId: string, clock: Clock)
    | Abort(abortId: string)
    | Tick(clock: Clock)

  datatype Reply =
    | Accepted
    | Committed(written: WriteParams)
    | Aborted(aborted: bool)
    | Ticked
    | Failed(code: ErrorCode)

  predicate Stale(t: Transfer, c: Clock) {
    c.idle - t.touchedAt >= REP_STREAM_TIMEOUT_MS || c.age - t.startedAt >= WRITE_TRANSFER_TIMEOUT_MS
  }

  function Expired(s: State, c: Clock): State {
    if s.Some? && Stale(s.value, c) then None else s
  }

  /** Declared sizes, in order, with the first fault found; the value is the running total. */
  function CheckDecls(reps: seq<RepDecl>): Result<int> {
    if reps == [] then Ok(0)
    else
      match CheckDecls(reps[..|reps| - 1])
      case Err(e) => Err(e)
      case Ok(total) => CheckDecl(total, reps[|reps| - 1])
  }

  function CheckDecl(total: int, rep: RepDecl): Result<int> {
    if !(0 <= rep.byteLength <= MAX_REP_BYTES) then Err(RepOverflow)
    else if total + rep.byteLength > MAX_WRITE_BYTES then Err(RepOverflow)
    else if rep.mime == "" || |rep.mime| > 255 || (rep.uti.Some? && |rep.uti.value| > 255) || rep.sha256.Malformed?
    then Err(BadParams)
    else Ok(total + rep.byteLength)
  }

  function BeginStep(s: State, p: BeginParams, c: Clock): (State, Reply) {
    var live := Expired(s, c);
    if live.Some? || !(1 <= |p.reps| <= MAX_WRITE_REPS) then (live, Failed(TooMany))
    else if p.transferId == "" || |p.transferId| > 64 then (live, Failed(BadParams))
    else match CheckDecls(p.reps)
         case Err(e) => (live, Failed(e))
         case Ok(_) =>
           (Some(Transfer(p, c.stamp, c.stamp, seq(|p.reps|, _ => []), seq(|p.reps|, _ => 0))), Accepted)
  }

  function ChunkFault(t: Transfer, p: ChunkParams): Option<ErrorCode>
    requires |t.bytes| == |t.sequences| == |t.params.reps|
  {
    if !(0 <= p.repIndex < |t.bytes|) || p.data == [] then Some(BadParams)
    else if p.seqNo != t.sequences[p.repIndex]
    then Some(if p.seqNo < t.sequences[p.repIndex] then SeqDuplicate else SeqGap)
    else if |p.data| > CHUNK_PAYLOAD_BYTES
            || |t.bytes[p.repIndex]| + |p.data| > t.params.reps[p.repIndex].byteLength
    then Some(RepOverflow)
    else None
  }

  function AppendStep(s: State, p: ChunkParams, c: Clock): (State, Reply)
    requires WellShaped(s)
  {
    var live := Expired(s, c);
    if live.None? || live.value.params.transferId != p.transferId then (live, Failed(StreamUnknownId))
    else
      var t := live.value;
      match ChunkFault(t, p)
      case Some(e) => (None, Failed(e))
      case None =>
        var i := p.repIndex;
        (Some(t.(bytes := t.bytes[i := t.bytes[i] + p.data],
                 sequences := t.sequences[i := t.sequences[i] + 1],
                 touchedAt := c.stamp)), Accepted)
  }

  /** The first fault a commit finds among the first n representations. */
  function CommitFault(t: Transfer, n: nat): Option<ErrorCode>
    requires n <= |t.bytes| == |t.params.reps|
  {
    if n == 0 then None
    else if CommitFault(t, n - 1).Some? then CommitFault(t, n - 1)
    else if |t.bytes[n - 1]| != t.params.reps[n - 1].byteLength then Some(RepShort)
    else if Names(HashOf(t.bytes[n - 1])) != t.params.reps[n - 1].sha256 then Some(HashMismatch)
    else None
  }

  function Assembled(t: Transfer): WriteParams
    requires |t.bytes| == |t.params.reps|
  {
    WriteParams(
      seq(|t.bytes|, i requires 0 <= i < |t.bytes| =>
        WrittenRep(t.bytes[i], t.params.reps[i].mime, t.params.reps[i].uti)),
      t.params.transient)
  }

  function CommitStep(s: State, id: string, c: Clock): (State, Reply)
    requires WellShaped(s)
  {
    var live := Expired(s, c);
    if live.None? || live.value.params.transferId != id then (live, Failed(StreamUnknownId))
    else match CommitFault(live.value, |live.value.bytes|)
         case Some(e) => (None, Failed(e))
         case None => (None, Committed(Assembled(live.value)))
  }

  function AbortStep(s: State, id: string): (State, Reply) {
    if s.Some? && s.value.params.transferId == id then (None, Aborted(true)) else (s, Aborted(false))
  }

  function Step(s: State, call: Call): (State, Reply)
    requires WellShaped(s)
  {
    match call
    case Begin(p, c) => BeginStep(s, p, c)
    case Append(p, c) => AppendStep(s, p, c)
    case Commit(id, c) => CommitStep(s, id, c)
    case Abort(id) => AbortStep(s, id)
    case Tick(c) => (Expired(s, c), Ticked)
  }

  // ---- what every step keeps -----------------------------------------------------------------

  predicate WellShaped(s: State) {
    s.Some? ==> |s.value.bytes| == |s.value.sequences| == |s.value.params.reps|
  }

  function DeclaredTotal(reps: seq<RepDecl>): int {
    if reps == [] then 0 else DeclaredTotal(reps[..|reps| - 1]) + reps[|reps| - 1].byteLength
  }

  function Buffered(bytes: seq<Bytes>): nat {
    if bytes == [] then 0 else Buffered(bytes[..|bytes| - 1]) + |bytes[|bytes| - 1]|
  }

  /** Nothing is buffered beyond what was declared, and what was declared is within the limits. */
  ghost predicate Bounded(s: State) {
    s.Some? ==>
      var t := s.value;
      && WellShaped(s)
      && 1 <= |t.params.reps| <= MAX_WRITE_REPS
      && CheckDecls(t.params.reps).Ok?
      && forall i :: 0 <= i < |t.bytes| ==> |t.bytes[i]| <= t.params.reps[i].byteLength
  }

  lemma {:induction false} CheckedDecls(reps: seq<RepDecl>)
    requires CheckDecls(reps).Ok?
    ensures CheckDecls(reps).value == DeclaredTotal(reps) <= MAX_WRITE_BYTES
    ensures forall i :: 0 <= i < |reps| ==> 0 <= reps[i].byteLength <= MAX_REP_BYTES
  {
    if reps != [] {
      CheckedDecls(reps[..|reps| - 1]);
      assert forall i :: 0 <= i < |reps| - 1 ==> reps[i] == reps[..|reps| - 1][i];
    }
  }

  lemma {:induction false} BufferedWithinDeclared(bytes: seq<Bytes>, reps: seq<RepDecl>)
    requires |bytes| == |reps| && forall i :: 0 <= i < |bytes| ==> |bytes[i]| <= reps[i].byteLength
    ensures Buffered(bytes) <= DeclaredTotal(reps)
  {
    if bytes != [] {
      BufferedWithinDeclared(bytes[..|bytes| - 1], reps[..|reps| - 1]);
    }
  }

  lemma StepKeepsBounds(s: State, call: Call)
    requires Bounded(s)
    ensures Bounded(Step(s, call).0)
  {
    if call.Begin? {
      if BeginStep(s, call.begin, call.clock).1 == Accepted {
        CheckedDecls(call.begin.reps);
      }
    }
  }

  /** At no time does an upload hold more than 64 MiB. */
  lemma BufferIsBounded(s: State)
    requires Bounded(s) && s.Some?
    ensures Buffered(s.value.bytes) <= MAX_WRITE_BYTES
  {
    CheckedDecls(s.value.params.reps);
    BufferedWithinDeclared(s.value.bytes, s.value.params.reps);
  }

  // ---- whole runs ----------------------------------------------------------------------------

  datatype Entry = Entry(call: Call, reply: Reply)
  datatype Ran = Ran(state: State, log: seq<Entry>)

  /** Any sequence of calls, from a new agent, with what each was answered. */
  function RunCalls(calls: seq<Call>): (r: Ran)
    ensures Bounded(r.state) && |r.log| == |calls|
  {
    if calls == [] then Ran(None, [])
    else
      var before := RunCalls(calls[..|calls| - 1]);
      var call := calls[|calls| - 1];
      StepKeepsBounds(before.state, call);
      var (after, reply) := Step(before.state, call);
      Ran(after, before.log + [Entry(call, reply)])
  }

  /** The last transfer that was accepted. */
  function LastBegun(log: seq<Entry>): Option<BeginParams> {
    if log == [] then None
    else
      var e := log[|log| - 1];
      if e.call.Begin? && e.reply.Accepted? then Some(e.call.begin) else LastBegun(log[..|log| - 1])
  }

  predicate AcceptedChunkFor(e: Entry, i: int) {
    e.call.Append? && e.reply.Accepted? && e.call.chunk.repIndex == i
  }

  /** The bytes of the chunks accepted for representation i since then, in order of arrival. */
  function Gathered(log: seq<Entry>, i: int): Bytes {
    if log == [] then []
    else
      var init, e := log[..|log| - 1], log[|log| - 1];
      if e.call.Begin? && e.reply.Accepted? then []
      else if AcceptedChunkFor(e, i) then Gathered(init, i) + e.call.chunk.data
      else Gathered(init, i)
  }

  /** Their sequence numbers. */
  function Numbers(log: seq<Entry>, i: int): seq<int> {
    if log == [] then []
    else
      var init, e := log[..|log| - 1], log[|log| - 1];
      if e.call.Begin? && e.reply.Accepted? then []
      else if AcceptedChunkFor(e, i) then Numbers(init, i) + [e.call.chunk.seqNo]
      else Numbers(init, i)
  }

  /** When the transfer was accepted, and when it last made progress. */
  function BegunAt(log: seq<Entry>): int {
    if log == [] then 0
    else
      var e := log[|log| - 1];
      if e.call.Begin? && e.reply.Accepted? then e.call.clock.stamp else BegunAt(log[..|log| - 1])
  }

  function TouchedAt(log: seq<Entry>): int {
    if log == [] then 0
    else
      var e := log[|log| - 1];
      if (e.call.Begin? || e.call.Append?) && e.reply.Accepted? then e.call.clock.stamp
      else TouchedAt(log[..|log| - 1])
  }

  function Upto(n: nat): seq<int> {
    seq(n, i => i)
  }

  /** The buffers are exactly what the answered calls say. */
  ghost predicate Faithful(r: Ran) {
    r.state.Some? ==>
      var t := r.state.value;
      && WellShaped(r.state)
      && LastBegun(r.log) == Some(t.params)
      && BegunAt(r.log) == t.startedAt && TouchedAt(r.log) == t.touchedAt
      && forall i :: 0 <= i < |t.bytes| ==>
           t.bytes[i] == Gathered(r.log, i) && Numbers(r.log, i) == Upto(t.sequences[i])
  }

  lemma FaithfulStep(before: Ran, call: Call)
    requires Faithful(before) && WellShaped(before.state)
    ensures var (after, reply) := Step(before.state, call);
            Faithful(Ran(after, before.log + [Entry(call, reply)]))
  {
    var (after, reply) := Step(before.state, call);
    var log := before.log + [Entry(call, reply)];
    assert log[..|log| - 1] == before.log;
    if call.Append? && reply.Accepted? {
      var t, k := before.state.value, call.chunk.repIndex;
      forall i | 0 <= i < |after.value.bytes|
        ensures after.value.bytes[i] == Gathered(log, i) && Numbers(log, i) == Upto(after.value.sequences[i])
      {
        if i == k {
          assert Upto(t.sequences[k] + 1) == Upto(t.sequences[k]) + [t.sequences[k]];
        }
      }
    }
  }

  lemma {:induction false} RunsAreFaithful(calls: seq<Call>)
    ensures Faithful(RunCalls(calls))
  {
    if calls != [] {
      RunsAreFaithful(calls[..|calls| - 1]);
      FaithfulStep(RunCalls(calls[..|calls| - 1]), calls[|calls| - 1]);
    }
  }

  /** What a commit may hand over: the accepted chunks of that very transfer, in seq order, whole and intact. */
  ghost predicate IsWhole(w: WriteParams, log: seq<Entry>, p: BeginParams) {
    && w.transient == p.transient
    && |w.reps| == |p.reps|
    && forall i :: 0 <= i < |p.reps| ==>
         && w.reps[i] == WrittenRep(Gathered(log, i), p.reps[i].mime, p.reps[i].uti)
         && |Gathered(log, i)| == p.reps[i].byteLength
         && Names(HashOf(Gathered(log, i))) == p.reps[i].sha256
         && Numbers(log, i) == Upto(|Numbers(log, i)|)
  }

  lemma {:induction false} NoCommitFault(t: Transfer, n: nat)
    requires n <= |t.bytes| == |t.params.reps|
    ensures CommitFault(t, n).None? <==>
              forall i :: 0 <= i < n ==>
                |t.bytes[i]| == t.params.reps[i].byteLength && Names(HashOf(t.bytes[i])) == t.params.reps[i].sha256
  {
    if n > 0 {
      NoCommitFault(t, n - 1);
    }
  }

  /**
   * Upload safety. In any run with any clock, a commit that succeeds hands over exactly the bytes
   * of the chunks accepted since that transfer began, numbered 0, 1, 2 and so on, of the declared
   * length and hash, within 5 s of the last progress and 30 s of the start.
   */
  lemma CommitIsFaithful(calls: seq<Call>, id: string, c: Clock)
    requires Step(RunCalls(calls).state, Commit(id, c)).1.Committed?
    ensures var r := RunCalls(calls);
            var begun := LastBegun(r.log);
            && begun.Some? && begun.value.transferId == id
            && IsWhole(Step(r.state, Commit(id, c)).1.written, r.log, begun.value)
            && c.idle - TouchedAt(r.log) < REP_STREAM_TIMEOUT_MS
            && c.age - BegunAt(r.log) < WRITE_TRANSFER_TIMEOUT_MS
            && Step(r.state, Commit(id, c)).0 == None
  {
    var r := RunCalls(calls);
    RunsAreFaithful(calls);
    NoCommitFault(r.state.value, |r.state.value.bytes|);
  }

  /** A chunk is accepted exactly when it is the next one of a live transfer and fits. */
  lemma ChunkAcceptedIff(calls: seq<Call>, p: ChunkParams, c: Clock)
    ensures var r := RunCalls(calls);
            Step(r.state, Append(p, c)).1.Accepted? <==>
              && r.state.Some? && !Stale(r.state.value, c) && LastBegun(r.log).Some?
              && LastBegun(r.log).value.transferId == p.transferId
              && 0 <= p.repIndex < |LastBegun(r.log).value.reps|
              && p.data != [] && p.seqNo == |Numbers(r.log, p.repIndex)|
              && |p.data| <= CHUNK_PAYLOAD_BYTES
              && |Gathered(r.log, p.repIndex)| + |p.data| <= LastBegun(r.log).value.reps[p.repIndex].byteLength
  {
    RunsAreFaithful(calls);
  }

  /**
   * Every fault is fatal: a refused chunk or commit of this transfer, or any checked call made when
   * it is stale, leaves no transfer, unless that call begins a new one.
   */
  lemma FaultsAreFatal(s: State, call: Call)
    requires s.Some? && WellShaped(s)
    requires var reply := Step(s, call).1;
             || (call.Append? && reply.Failed? && call.chunk.transferId == s.value.params.transferId)
             || (call.Commit? && call.commitId == s.value.params.transferId)
             || (call.Abort? && call.abortId == s.value.params.transferId)
             || (!call.Abort? && Stale(s.value, call.clock))
    ensures var (after, reply) := Step(s, call);
            if call.Begin? && reply.Accepted? then after.Some? && after.value.params == call.begin else after == None
  {
  }

  /** Once there is no transfer, nothing can be committed until another is begun. */
  lemma {:induction false} DeadStaysDead(calls: seq<Call>, more: seq<Call>)
    requires RunCalls(calls).state == None
    requires forall i :: 0 <= i < |more| ==> !more[i].Begin?
    ensures RunCalls(calls + more).state == None
    ensures forall i :: |calls| <= i < |calls + more| ==> !RunCalls(calls + more).log[i].reply.Committed?
  {
    if more == [] {
      assert calls + more == calls;
    } else {
      var init := more[..|more| - 1];
      DeadStaysDead(calls, init);
      assert (calls + more)[..|calls + more| - 1] == calls + init;
    }
  }

  // ---- the objects ---------------------------------------------------------------------------

  class Upload {
    const params: BeginParams
    const startedAt: int
    var touchedAt: int
    var bytes: seq<Bytes>
    var sequences: seq<nat>

    function View(): Transfer
      reads this
    {
      Transfer(params, startedAt, touchedAt, bytes, sequences)
    }

    constructor (params: BeginParams, now: int)
      ensures View() == Transfer(params, now, now, seq(|params.reps|, _ => []), seq(|params.reps|, _ => 0))
    {
      this.params, startedAt, touchedAt := params, now, now;
      bytes, sequences := seq(|params.reps|, _ => []), seq(|params.reps|, _ => 0);
    }
  }

  class WriteUpload {
    var current: Upload?

    ghost function View(): State
      reads this, current
    {
      if current == null then None else Some(current.View())
    }

    constructor ()
      ensures View() == None
    {
      current := null;
    }

    method Expire(c: Clock)
      modifies this
      ensures View() == Expired(old(View()), c)
      ensures current == null || current == old(current)
    {
      if current == null {
        return;
      }
      if c.idle - current.touchedAt >= REP_STREAM_TIMEOUT_MS || c.age - current.startedAt >= WRITE_TRANSFER_TIMEOUT_MS {
        Discard();
      }
    }

    method Discard()
      modifies this
      ensures View() == None
    {
      current := null;
    }

    /** The first fault among the declared representations, in the order they are checked. */
    static method CheckReps(reps: seq<RepDecl>) returns (r: Result<int>)
      ensures r == CheckDecls(reps)
    {
      var total := 0;
      for i := 0 to |reps|
        invariant CheckDecls(reps[..i]) == Ok(total)
      {
        assert reps[..i + 1][..i] == reps[..i];
        r := CheckDecl(total, reps[i]);
        if r.Err? {
          FaultStays(reps, i + 1);
          return;
        }
        total := r.value;
      }
      assert reps[..|reps|] == reps;
      return Ok(total);
    }

    method Begin(p: BeginParams, c: Clock) returns (reply: Reply)
      modifies this
      ensures (View(), reply) == BeginStep(old(View()), p, c)
      ensures reply.Accepted? ==> fresh(current)
      ensures !reply.Accepted? ==> current == null || current == old(current)
    {
      Expire(c);
      if current != null || !(1 <= |p.reps| <= MAX_WRITE_REPS) {
        return Failed(TooMany);
      }
      if p.transferId == "" || |p.transferId| > 64 {
        return Failed(BadParams);
      }
      var checked := CheckReps(p.reps);
      if checked.Err? {
        return Failed(checked.error);
      }
      current := new Upload(p, c.stamp);
      return Accepted;
    }

    method Append(p: ChunkParams, c: Clock) returns (reply: Reply)
      requires WellShaped(View())
      modifies this, current
      ensures (View(), reply) == AppendStep(old(View()), p, c)
      ensures current == null || current == old(current)
    {
      Expire(c);
      if current == null || current.params.transferId != p.transferId {
        return Failed(StreamUnknownId);
      }
      var index := p.repIndex;
      if !(0 <= index < |current.bytes|) || p.data == [] {
        Discard();
        return Failed(BadParams);
      }
      var expected := current.sequences[index];
      if p.seqNo != expected {
        Discard();
        return Failed(if p.seqNo < expected then SeqDuplicate else SeqGap);
      }
      if !(|p.data| <= CHUNK_PAYLOAD_BYTES
           && |current.bytes[index]| + |p.data| <= current.params.reps[index].byteLength) {
        Discard();
        return Failed(RepOverflow);
      }
      current.bytes := current.bytes[index := current.bytes[index] + p.data];
      current.sequences := current.sequences[index := current.sequences[index] + 1];
      current.touchedAt := c.stamp;
      return Accepted;
    }

    method Commit(id: string, c: Clock) returns (reply: Reply)
      requires WellShaped(View())
      modifies this
      ensures (View(), reply) == CommitStep(old(View()), id, c)
      ensures current == null || current == old(current)
    {
      Expire(c);
      if current == null || current.params.transferId != id {
        return Failed(StreamUnknownId);
      }
      var transfer := current;
      for index := 0 to |transfer.bytes|
        invariant current == transfer && View() == old(View())
        invariant CommitFault(transfer.View(), index) == None
      {
        var rep := transfer.params.reps[index];
        if |transfer.bytes[index]| != rep.byteLength {
          CommitFaultStays(transfer.View(), index + 1);
          Discard();
          return Failed(RepShort);
        }
        if Names(HashOf(transfer.bytes[index])) != rep.sha256 {
          CommitFaultStays(transfer.View(), index + 1);
          Discard();
          return Failed(HashMismatch);
        }
      }
      current := null;
      return Committed(Assembled(transfer.View()));
    }

    method Abort(id: string) returns (reply: Reply)
      modifies this
      ensures (View(), reply) == AbortStep(old(View()), id)
      ensures current == null || current == old(current)
    {
      if current == null || current.params.transferId != id {
        return Aborted(false);
      }
      Discard();
      return Aborted(true);
    }
  }

  lemma {:induction false} FaultStays(reps: seq<RepDecl>, n: nat)
    requires n <= |reps| && CheckDecls(reps[..n]).Err?
    ensures CheckDecls(reps) == CheckDecls(reps[..n])
  {
    if n == |reps| {
      assert reps[..n] == reps;
    } else {
      assert reps[..|reps| - 1][..n] == reps[..n];
      FaultStays(reps[..|reps| - 1], n);
    }
  }

  lemma {:induction false} CommitFaultStays(t: Transfer, n: nat)
    requires n <= |t.bytes| == |t.params.reps| && CommitFault(t, n).Some?
    ensures CommitFault(t, |t.bytes|) == CommitFault(t, n)
    decreases |t.bytes| - n
  {
    if n < |t.bytes| {
      CommitFaultStays(t, n + 1);
    }
  }
}
