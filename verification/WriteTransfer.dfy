/** The host's side of a clipboard write, driving the agent's upload over a channel that may fail. */
module WriteTransfer {
  import opened Domain
  import opened WriteUpload

  // ---- what the caller passes ----------------------------------------------------------------

  /** Base64 text: its length, what decoding yields, and whether re-encoding gives the same text. */
  datatype EncodedText = EncodedText(length: nat, decoded: Bytes, canonical: bool)
  type Encoded = e: EncodedText | e.canonical ==> e.length == (|e.decoded| + 2) / 3 * 4
    witness EncodedText(0, [], true)

  datatype HostRep = HostRep(mime: string, uti: Option<string>, b64: Encoded)
  datatype HostParams = HostParams(reps: seq<HostRep>, transient: bool)

  const MAX_REP_BASE64 := (MAX_REP_BYTES + 2) / 3 * 4

  function Decoded(reps: seq<HostRep>): seq<Bytes> {
    seq(|reps|, i requires 0 <= i < |reps| => reps[i].b64.decoded)
  }

  function Decls(reps: seq<HostRep>): seq<RepDecl> {
    seq(|reps|, i requires 0 <= i < |reps| =>
      RepDecl(reps[i].mime, reps[i].uti, |reps[i].b64.decoded|, Names(HashOf(reps[i].b64.decoded))))
  }

  /** What the clipboard must receive. */
  function Intended(p: HostParams): WriteParams {
    WriteParams(
      seq(|p.reps|, i requires 0 <= i < |p.reps| => WrittenRep(p.reps[i].b64.decoded, p.reps[i].mime, p.reps[i].uti)),
      p.transient)
  }

  function TotalBytes(reps: seq<HostRep>): nat {
    if reps == [] then 0 else TotalBytes(reps[..|reps| - 1]) + |reps[|reps| - 1].b64.decoded|
  }

  /** The first fault among the representations, in the order the host checks. */
  function RepFault(total: nat, rep: HostRep): Option<ErrorCode> {
    if rep.b64.length > MAX_REP_BASE64 then Some(RepOverflow)
    else if rep.mime == "" || |rep.mime| > 255 || (rep.uti.Some? && |rep.uti.value| > 255) then Some(BadParams)
    else if !rep.b64.canonical then Some(BadBase64)
    else if |rep.b64.decoded| > MAX_REP_BYTES || total + |rep.b64.decoded| > MAX_WRITE_BYTES then Some(RepOverflow)
    else None
  }

  function RepsFault(reps: seq<HostRep>): Option<ErrorCode> {
    if reps == [] then None
    else if RepsFault(reps[..|reps| - 1]).Some? then RepsFault(reps[..|reps| - 1])
    else RepFault(TotalBytes(reps[..|reps| - 1]), reps[|reps| - 1])
  }

  /** A write the host does not refuse outright. */
  predicate Legal(p: HostParams) {
    1 <= |p.reps| <= MAX_WRITE_REPS && RepsFault(p.reps).None?
  }

  predicate WithinLimits(rep: HostRep) {
    && 1 <= |rep.mime| <= 255 && (rep.uti.Some? ==> |rep.uti.value| <= 255)
    && rep.b64.canonical && |rep.b64.decoded| <= MAX_REP_BYTES
  }

  lemma RepLegalIffLimits(total: nat, rep: HostRep)
    ensures RepFault(total, rep).None? <==> WithinLimits(rep) && total + |rep.b64.decoded| <= MAX_WRITE_BYTES
  {
  }

  lemma {:induction false} LegalIffLimits(reps: seq<HostRep>)
    ensures RepsFault(reps).None? <==>
              (forall i :: 0 <= i < |reps| ==> WithinLimits(reps[i])) && TotalBytes(reps) <= MAX_WRITE_BYTES
  {
    hide RepFault, WithinLimits;
    if reps != [] {
      var init, last := reps[..|reps| - 1], reps[|reps| - 1];
      LegalIffLimits(init);
      RepLegalIffLimits(TotalBytes(init), last);
      assert forall i :: 0 <= i < |init| ==> reps[i] == init[i];
    }
  }

  // ---- the channel ---------------------------------------------------------------------------

  /** What becomes of one request: answered, answered in vain, never seen, or the agent restarts. */
  datatype Fate = Delivered | ReplyLost | Lost | AgentRestarts

  /** Around one request: the host's clock, the agent's clock, and an expiry tick that may precede it. */
  datatype Env = Env(hostNow: int, fate: Fate, clock: Clock, tick: Option<Clock>)

  function AfterTick(s: State, e: Env): State {
    if e.tick.Some? then Expired(s, e.tick.value) else s
  }

  /** The agent's state after the request, and its answer if it handled it. */
  function Arrive(s: State, call: Call, e: Env): (State, Option<Reply>)
    requires WellShaped(s)
  {
    match e.fate
    case AgentRestarts => (None, None)
    case Lost => (AfterTick(s, e), None)
    case _ => var (after, reply) := Step(AfterTick(s, e), call); (after, Some(reply))
  }

  function Landed(reply: Option<Reply>): seq<WriteParams> {
    if reply.Some? && reply.value.Committed? then [reply.value.written] else []
  }

  class Agent {
    var upload: State
    /** Everything this agent has put on the clipboard. */
    var clipboard: seq<WriteParams>

    constructor ()
      ensures upload == None && clipboard == []
    {
      upload, clipboard := None, [];
    }

    method Request(call: Call, e: Env) returns (r: Result<Reply>)
      requires Bounded(upload)
      modifies this
      ensures Bounded(upload)
      ensures upload == Arrive(old(upload), call, e).0
      ensures clipboard == old(clipboard) + Landed(Arrive(old(upload), call, e).1)
      ensures r.Ok? <==> e.fate.Delivered? && !Arrive(old(upload), call, e).1.value.Failed?
      ensures r.Ok? ==> r.value == Arrive(old(upload), call, e).1.value
      ensures r.Err? && !e.fate.ReplyLost? ==> clipboard == old(clipboard)
    {
      var (after, reply) := Arrive(upload, call, e);
      StepKeepsBounds(AfterTick(upload, e), call);
      upload, clipboard := after, clipboard + Landed(reply);
      r := if e.fate.Delivered? && !reply.value.Failed? then Ok(reply.value)
           else if e.fate.Delivered? then Err(reply.value.code) else Err(ChannelLost);
    }

    /** A write small enough for one line. */
    method RequestInline(w: WriteParams, e: Env) returns (r: Result<()>)
      requires Bounded(upload)
      modifies this
      ensures Bounded(upload)
      ensures clipboard == old(clipboard) || clipboard == old(clipboard) + [w]
      ensures clipboard == old(clipboard) + [w] <==>
                (e.fate.Delivered? || e.fate.ReplyLost?) && 1 <= |w.reps| <= MAX_WRITE_REPS && Fits(w)
      ensures r.Ok? <==> e.fate.Delivered? && 1 <= |w.reps| <= MAX_WRITE_REPS && Fits(w)
    {
      upload := if e.fate.AgentRestarts? then None else AfterTick(upload, e);
      if e.fate.Lost? || e.fate.AgentRestarts? {
        return Err(ChannelLost);
      }
      if !(1 <= |w.reps| <= MAX_WRITE_REPS) {
        return Err(TooMany);
      }
      if !Fits(w) {
        return Err(RepOverflow);
      }
      clipboard := clipboard + [w];
      return if e.fate.Delivered? then Ok(()) else Err(ChannelLost);
    }
  }

  function WrittenBytes(reps: seq<WrittenRep>): nat {
    if reps == [] then 0 else WrittenBytes(reps[..|reps| - 1]) + |reps[|reps| - 1].data|
  }

  predicate Fits(w: WriteParams) {
    (forall i :: 0 <= i < |w.reps| ==> |w.reps[i].data| <= MAX_REP_BYTES) && WrittenBytes(w.reps) <= MAX_WRITE_BYTES
  }

  lemma {:induction false} IntendedFits(p: HostParams)
    requires RepsFault(p.reps).None?
    ensures Fits(Intended(p)) && WrittenBytes(Intended(p).reps) == TotalBytes(p.reps)
    decreases |p.reps|
  {
    LegalIffLimits(p.reps);
    if p.reps != [] {
      var init := p.(reps := p.reps[..|p.reps| - 1]);
      IntendedFits(init);
      assert Intended(p).reps[..|p.reps| - 1] == Intended(init).reps;
    }
  }

  // ---- how far a chunked write has come ------------------------------------------------------

  function Sent(length: nat, chunks: nat): nat {
    if chunks * CHUNK_PAYLOAD_BYTES < length then chunks * CHUNK_PAYLOAD_BYTES else length
  }

  function Chunks(length: nat): nat {
    (length + CHUNK_PAYLOAD_BYTES - 1) / CHUNK_PAYLOAD_BYTES
  }

  lemma ChunksLeft(length: nat, s: nat)
    ensures s < Chunks(length) <==> s * CHUNK_PAYLOAD_BYTES < length
  {
  }

  function PartSent(decoded: seq<Bytes>, i: nat, s: nat, j: nat): Bytes
    requires j < |decoded|
  {
    if j < i then decoded[j] else if j == i then decoded[j][..Sent(|decoded[j]|, s)] else []
  }

  /** The agent holds representations before i, and the first s chunks of representation i. */
  ghost predicate Holds(u: State, begin: BeginParams, decoded: seq<Bytes>, i: nat, s: nat) {
    && u.Some? && WellShaped(u)
    && u.value.params == begin
    && |u.value.bytes| == |decoded| == |begin.reps|
    && (forall j :: 0 <= j < |decoded| ==> u.value.bytes[j] == PartSent(decoded, i, s, j))
    && (i < |decoded| ==> u.value.sequences[i] == s)
    && (forall j :: i < j < |decoded| ==> u.value.sequences[j] == 0)
  }

  function BeginFor(transferId: string, p: HostParams): BeginParams {
    BeginParams(transferId, p.transient, Decls(p.reps))
  }

  function ChunkFor(transferId: string, decoded: seq<Bytes>, i: nat, s: nat): ChunkParams
    requires i < |decoded|
  {
    var b := decoded[i];
    ChunkParams(transferId, i, s, b[Sent(|b|, s)..Sent(|b|, s + 1)])
  }

  lemma BegunHolds(u: State, transferId: string, p: HostParams, e: Env)
    requires WellShaped(u)
    requires var (_, reply) := Arrive(u, Begin(BeginFor(transferId, p), e.clock), e);
             reply.Some? && !reply.value.Failed?
    ensures Holds(Arrive(u, Begin(BeginFor(transferId, p), e.clock), e).0,
                  BeginFor(transferId, p), Decoded(p.reps), 0, 0)
  {
    assert forall j :: 0 <= j < |p.reps| ==> Decoded(p.reps)[j][..0] == [];
  }

  lemma ChunkHolds(u: State, begin: BeginParams, decoded: seq<Bytes>, i: nat, s: nat, e: Env)
    requires i < |decoded| && s * CHUNK_PAYLOAD_BYTES < |decoded[i]| && Holds(u, begin, decoded, i, s)
    requires var (_, reply) := Arrive(u, Append(ChunkFor(begin.transferId, decoded, i, s), e.clock), e);
             reply.Some? && !reply.value.Failed?
    ensures Holds(Arrive(u, Append(ChunkFor(begin.transferId, decoded, i, s), e.clock), e).0, begin, decoded, i, s + 1)
  {
    var b := decoded[i];
    assert b[..Sent(|b|, s)] + b[Sent(|b|, s)..Sent(|b|, s + 1)] == b[..Sent(|b|, s + 1)];
  }

  lemma NextRepHolds(u: State, begin: BeginParams, decoded: seq<Bytes>, i: nat, s: nat)
    requires i < |decoded| && s * CHUNK_PAYLOAD_BYTES >= |decoded[i]| && Holds(u, begin, decoded, i, s)
    ensures Holds(u, begin, decoded, i + 1, 0)
  {
    assert decoded[i][..|decoded[i]|] == decoded[i];
    assert i + 1 < |decoded| ==> decoded[i + 1][..0] == [];
  }

  /** With everything sent, whatever commit the agent accepts is the intended write. */
  lemma CommitWritesIntended(u: State, transferId: string, p: HostParams, e: Env)
    requires Holds(u, BeginFor(transferId, p), Decoded(p.reps), |p.reps|, 0)
    ensures Landed(Arrive(u, Commit(transferId, e.clock), e).1) == []
         || Landed(Arrive(u, Commit(transferId, e.clock), e).1) == [Intended(p)]
  {
    var reply := Arrive(u, Commit(transferId, e.clock), e).1;
    if reply.Some? && reply.value.Committed? {
      assert reply.value.written == Assembled(u.value);
      assert Assembled(u.value).reps == Intended(p).reps;
    }
  }

  // ---- an error-free, in-time channel --------------------------------------------------------

  function ChunkCount(decoded: seq<Bytes>): nat {
    if decoded == [] then 0 else ChunkCount(decoded[..|decoded| - 1]) + Chunks(|decoded[|decoded| - 1]|)
  }

  /** One begin, the chunks, one commit. */
  function RequestCount(decoded: seq<Bytes>): nat {
    2 + ChunkCount(decoded)
  }

  predicate Prompt(c: Clock, touchedAt: int, startedAt: int) {
    c.idle - touchedAt < REP_STREAM_TIMEOUT_MS && c.age - startedAt < WRITE_TRANSFER_TIMEOUT_MS
  }

  /** Request k is made within the host's deadline and handled within the agent's two time limits. */
  predicate Reaches(env: nat -> Env, hostStart: int, k: nat) {
    var e := env(k);
    && (e.fate.Delivered? || e.fate.ReplyLost?)
    && e.hostNow - hostStart < WRITE_TRANSFER_TIMEOUT_MS
    && (k > 0 ==>
          && Prompt(e.clock, env(k - 1).clock.stamp, env(0).clock.stamp)
          && (e.tick.Some? ==> Prompt(e.tick.value, env(k - 1).clock.stamp, env(0).clock.stamp)))
  }

  /** And it is answered. */
  predicate OnTime(env: nat -> Env, hostStart: int, k: nat) {
    Reaches(env, hostStart, k) && env(k).fate.Delivered?
  }

  ghost predicate AllOnTime(env: nat -> Env, hostStart: int, n: nat) {
    forall k: nat :: k < n ==> OnTime(env, hostStart, k)
  }

  ghost predicate OnTimeFrom(env: nat -> Env, hostStart: int, lo: nat, hi: nat) {
    forall k: nat :: lo <= k < hi ==> OnTime(env, hostStart, k)
  }

  /** The transfer was last touched by request k - 1. */
  ghost predicate TouchedBy(u: State, env: nat -> Env, k: nat) {
    u.Some? && k > 0 && u.value.touchedAt == env(k - 1).clock.stamp && u.value.startedAt == env(0).clock.stamp
  }

  /** An idle agent accepts a legal begin exactly when it reaches it. */
  lemma BeginAccepted(u: State, transferId: string, p: HostParams, env: nat -> Env, hostStart: int)
    requires u.None? && Legal(p) && 1 <= |transferId| <= 64
    requires env(0).hostNow - hostStart < WRITE_TRANSFER_TIMEOUT_MS
    ensures var (after, reply) := Arrive(u, Begin(BeginFor(transferId, p), env(0).clock), env(0));
            if Reaches(env, hostStart, 0) then reply == Some(Accepted) && TouchedBy(after, env, 1) else reply.None?
  {
    LegalDecls(p.reps);
  }

  lemma {:induction false} LegalDecls(reps: seq<HostRep>)
    requires RepsFault(reps).None?
    ensures CheckDecls(Decls(reps)) == Ok(TotalBytes(reps))
  {
    if reps != [] {
      LegalDecls(reps[..|reps| - 1]);
      assert Decls(reps)[..|reps| - 1] == Decls(reps[..|reps| - 1]);
    }
  }

  /** The next chunk of a transfer is accepted exactly when it reaches the agent in time. */
  lemma ChunkAccepted(
      u: State, transferId: string, p: HostParams, i: nat, s: nat, env: nat -> Env, hostStart: int, k: nat)
    requires i < |p.reps| && s * CHUNK_PAYLOAD_BYTES < |Decoded(p.reps)[i]|
    requires Holds(u, BeginFor(transferId, p), Decoded(p.reps), i, s)
    requires TouchedBy(u, env, k) && env(k).hostNow - hostStart < WRITE_TRANSFER_TIMEOUT_MS
    ensures var (after, reply) := Arrive(u, Append(ChunkFor(transferId, Decoded(p.reps), i, s), env(k).clock), env(k));
            if Reaches(env, hostStart, k) then reply == Some(Accepted) && TouchedBy(after, env, k + 1)
            else reply.None? || reply.value.Failed?
  {
  }

  lemma {:induction false} NoFaultIfWhole(t: Transfer, n: nat)
    requires n <= |t.bytes| == |t.params.reps|
    requires forall i :: 0 <= i < n ==>
               |t.bytes[i]| == t.params.reps[i].byteLength && Names(HashOf(t.bytes[i])) == t.params.reps[i].sha256
    ensures CommitFault(t, n).None?
  {
    NoCommitFault(t, n);
  }

  /** With everything sent, the commit lands exactly when it reaches the agent in time. */
  lemma CommitAccepted(u: State, transferId: string, p: HostParams, env: nat -> Env, hostStart: int, k: nat)
    requires Holds(u, BeginFor(transferId, p), Decoded(p.reps), |p.reps|, 0)
    requires TouchedBy(u, env, k) && env(k).hostNow - hostStart < WRITE_TRANSFER_TIMEOUT_MS
    ensures var reply := Arrive(u, Commit(transferId, env(k).clock), env(k)).1;
            if Reaches(env, hostStart, k) then reply == Some(Committed(Intended(p)))
            else reply.None? || reply.value.Failed?
  {
    NoFaultIfWhole(u.value, |u.value.bytes|);
    CommitWritesIntended(u, transferId, p, env(k));
  }

  /** Why an error is not informative: a lost reply hides a commit that did take effect. */
  lemma LostReplyHidesCommit(u: State, transferId: string, p: HostParams, e: Env)
    requires Holds(u, BeginFor(transferId, p), Decoded(p.reps), |p.reps|, 0)
    requires e.fate.ReplyLost? && !Stale(u.value, e.clock) && e.tick.None?
    ensures Landed(Arrive(u, Commit(transferId, e.clock), e).1) == [Intended(p)]
  {
    NoFaultIfWhole(u.value, |u.value.bytes|);
    CommitWritesIntended(u, transferId, p, e);
  }

  lemma {:induction false} ChunkCountPrefix(decoded: seq<Bytes>, i: nat)
    requires i < |decoded|
    ensures ChunkCount(decoded[..i + 1]) == ChunkCount(decoded[..i]) + Chunks(|decoded[i]|)
    ensures ChunkCount(decoded[..i + 1]) <= ChunkCount(decoded)
  {
    assert decoded[..i + 1][..i] == decoded[..i];
    if i + 1 == |decoded| {
      assert decoded[..i + 1] == decoded;
    } else {
      ChunkCountPrefix(decoded[..|decoded| - 1], i);
      assert decoded[..|decoded| - 1][..i + 1] == decoded[..i + 1];
      assert decoded[..|decoded| - 1][..i] == decoded[..i];
    }
  }

  // ---- the transport -------------------------------------------------------------------------

  class WriteTransport {
    const agent: Agent
    var active: bool

    constructor (agent: Agent)
      ensures this.agent == agent && !active
    {
      this.agent, active := agent, false;
    }

    /** A request that is only made while the deadline has not passed. */
    method Send(call: Call, hostStart: int, e: Env) returns (r: Result<Reply>)
      requires Bounded(agent.upload)
      modifies agent
      ensures Bounded(agent.upload)
      ensures r.Ok? ==>
                && agent.upload == Arrive(old(agent.upload), call, e).0
                && Arrive(old(agent.upload), call, e).1 == Some(r.value) && !r.value.Failed?
      ensures agent.clipboard == old(agent.clipboard)
           || agent.clipboard == old(agent.clipboard) + Landed(Arrive(old(agent.upload), call, e).1)
      ensures r.Ok? ==> agent.clipboard == old(agent.clipboard) + Landed(Some(r.value))
      ensures r.Err? && !e.fate.ReplyLost? ==> agent.clipboard == old(agent.clipboard)
      ensures r.Ok? <==> e.hostNow - hostStart < WRITE_TRANSFER_TIMEOUT_MS && e.fate.Delivered?
                         && !Arrive(old(agent.upload), call, e).1.value.Failed?
      ensures agent.clipboard == if e.hostNow - hostStart < WRITE_TRANSFER_TIMEOUT_MS
                                 then old(agent.clipboard) + Landed(Arrive(old(agent.upload), call, e).1)
                                 else old(agent.clipboard)
    {
      var deadline := hostStart + WRITE_TRANSFER_TIMEOUT_MS;
      var remaining := deadline - e.hostNow;
      if remaining <= 0 {
        return Err(Timeout);
      }
      r := agent.Request(call, e);
    }

    /** Sends chunk s of representation i as request k. */
    method SendChunk(transferId: string, p: HostParams, i: nat, s: nat, hostStart: int, env: nat -> Env, k: nat)
      returns (r: Result<Reply>)
      requires Bounded(agent.upload) && i < |p.reps| && s * CHUNK_PAYLOAD_BYTES < |p.reps[i].b64.decoded|
      requires Holds(agent.upload, BeginFor(transferId, p), Decoded(p.reps), i, s)
      modifies agent
      ensures Bounded(agent.upload) && agent.clipboard == old(agent.clipboard)
      ensures r.Ok? ==> Holds(agent.upload, BeginFor(transferId, p), Decoded(p.reps), i, s + 1)
      ensures old(TouchedBy(agent.upload, env, k)) ==> (r.Ok? <==> OnTime(env, hostStart, k))
      ensures old(TouchedBy(agent.upload, env, k)) && r.Ok? ==> TouchedBy(agent.upload, env, k + 1)
    {
      var bytes, offset := p.reps[i].b64.decoded, s * CHUNK_PAYLOAD_BYTES;
      var end := if offset + CHUNK_PAYLOAD_BYTES < |bytes| then offset + CHUNK_PAYLOAD_BYTES else |bytes|;
      var chunk := ChunkParams(transferId, i, s, bytes[offset..end]);
      assert chunk == ChunkFor(transferId, Decoded(p.reps), i, s);
      ghost var before := agent.upload;
      if env(k).hostNow - hostStart < WRITE_TRANSFER_TIMEOUT_MS && TouchedBy(agent.upload, env, k) {
        ChunkAccepted(before, transferId, p, i, s, env, hostStart, k);
      }
      r := Send(Append(chunk, env(k).clock), hostStart, env(k));
      if r.Ok? {
        ChunkHolds(before, BeginFor(transferId, p), Decoded(p.reps), i, s, env(k));
      }
    }

    /** Sends one representation chunk by chunk: done exactly when each request of it is on time. */
    method SendRep(transferId: string, p: HostParams, i: nat, hostStart: int, env: nat -> Env, k0: nat)
      returns (r: Result<()>, k: nat)
      requires Bounded(agent.upload) && i < |p.reps|
      requires Holds(agent.upload, BeginFor(transferId, p), Decoded(p.reps), i, 0)
      modifies agent
      ensures Bounded(agent.upload) && agent.clipboard == old(agent.clipboard)
      ensures r.Ok? ==> Holds(agent.upload, BeginFor(transferId, p), Decoded(p.reps), i + 1, 0)
      ensures r.Ok? ==> k == k0 + Chunks(|p.reps[i].b64.decoded|)
      ensures old(TouchedBy(agent.upload, env, k0)) ==>
                (r.Ok? <==> OnTimeFrom(env, hostStart, k0, k0 + Chunks(|p.reps[i].b64.decoded|)))
      ensures old(TouchedBy(agent.upload, env, k0)) && r.Ok? ==> TouchedBy(agent.upload, env, k)
    {
      hide Holds, Bounded, TouchedBy, OnTime;
      var bytes := p.reps[i].b64.decoded;
      ghost var touched := TouchedBy(agent.upload, env, k0);
      var offset, seqNo: nat := 0, 0;
      k := k0;
      while offset < |bytes|
        invariant Bounded(agent.upload) && agent.clipboard == old(agent.clipboard)
        invariant offset == seqNo * CHUNK_PAYLOAD_BYTES && seqNo <= Chunks(|bytes|) && k == k0 + seqNo
        invariant Holds(agent.upload, BeginFor(transferId, p), Decoded(p.reps), i, seqNo)
        invariant touched ==> TouchedBy(agent.upload, env, k) && OnTimeFrom(env, hostStart, k0, k)
      {
        ChunksLeft(|bytes|, seqNo);
        var sent := SendChunk(transferId, p, i, seqNo, hostStart, env, k);
        if sent.Err? {
          return Err(sent.error), k;
        }
        offset, seqNo, k := offset + CHUNK_PAYLOAD_BYTES, seqNo + 1, k + 1;
      }
      ChunksLeft(|bytes|, seqNo);
      NextRepHolds(agent.upload, BeginFor(transferId, p), Decoded(p.reps), i, seqNo);
      return Ok(()), k;
    }

    /** Sends every representation in order: done exactly when each request is on time. */
    method SendReps(transferId: string, p: HostParams, hostStart: int, env: nat -> Env) returns (r: Result<()>, k: nat)
      requires Bounded(agent.upload)
      requires Holds(agent.upload, BeginFor(transferId, p), Decoded(p.reps), 0, 0)
      modifies agent
      ensures Bounded(agent.upload) && agent.clipboard == old(agent.clipboard)
      ensures r.Ok? ==> Holds(agent.upload, BeginFor(transferId, p), Decoded(p.reps), |p.reps|, 0)
      ensures r.Ok? ==> k == 1 + ChunkCount(Decoded(p.reps))
      ensures old(TouchedBy(agent.upload, env, 1)) ==>
                (r.Ok? <==> OnTimeFrom(env, hostStart, 1, 1 + ChunkCount(Decoded(p.reps))))
      ensures old(TouchedBy(agent.upload, env, 1)) && r.Ok? ==> TouchedBy(agent.upload, env, k)
    {
      hide Holds, Bounded, TouchedBy, OnTime, Chunks;
      ghost var decoded := Decoded(p.reps);
      ghost var touched := TouchedBy(agent.upload, env, 1);
      k := 1;
      for i := 0 to |p.reps|
        invariant Bounded(agent.upload) && agent.clipboard == old(agent.clipboard)
        invariant k == 1 + ChunkCount(decoded[..i])
        invariant Holds(agent.upload, BeginFor(transferId, p), decoded, i, 0)
        invariant touched ==> TouchedBy(agent.upload, env, k) && OnTimeFrom(env, hostStart, 1, k)
      {
        ChunkCountPrefix(decoded, i);
        ghost var k0 := k;
        var sent, next := SendRep(transferId, p, i, hostStart, env, k);
        k := next;
        if sent.Err? {
          return sent, k;
        }
      }
      assert decoded[..|p.reps|] == decoded;
      return Ok(()), k;
    }

    /** Begin, chunks, commit; and an abort whenever the commit was not confirmed. */
    method Upload(transferId: string, p: HostParams, hostStart: int, env: nat -> Env) returns (r: Result<()>)
      requires Bounded(agent.upload) && Legal(p)
      modifies agent
      ensures Bounded(agent.upload)
      ensures r.Ok? ==> agent.clipboard == old(agent.clipboard) + [Intended(p)]
      ensures agent.clipboard == old(agent.clipboard) || agent.clipboard == old(agent.clipboard) + [Intended(p)]
      ensures r.Err? && !env(RequestCount(Decoded(p.reps)) - 1).fate.ReplyLost? ==>
                agent.clipboard == old(agent.clipboard)
      ensures r.Err? && (forall k: nat :: env(k).fate.Delivered?) ==>
                agent.upload.None? || agent.upload.value.params.transferId != transferId
      ensures old(agent.upload).None? && 1 <= |transferId| <= 64 ==>
                && (r.Ok? <==> AllOnTime(env, hostStart, RequestCount(Decoded(p.reps))))
                && (agent.clipboard != old(agent.clipboard) <==> LandsChunked(p, hostStart, env))
    {
      var committed, k := TryUpload(transferId, p, hostStart, env);
      r := committed;
      if committed.Err? {
        var _ := agent.Request(Abort(transferId), env(k));
      }
    }

    method TryUpload(transferId: string, p: HostParams, hostStart: int, env: nat -> Env) returns (r: Result<()>, k: nat)
      requires Bounded(agent.upload) && Legal(p)
      modifies agent
      ensures Bounded(agent.upload)
      ensures r.Ok? ==> agent.clipboard == old(agent.clipboard) + [Intended(p)]
      ensures agent.clipboard == old(agent.clipboard) || agent.clipboard == old(agent.clipboard) + [Intended(p)]
      ensures r.Err? && !env(RequestCount(Decoded(p.reps)) - 1).fate.ReplyLost? ==>
                agent.clipboard == old(agent.clipboard)
      ensures old(agent.upload).None? && 1 <= |transferId| <= 64 ==>
                && (r.Ok? <==> AllOnTime(env, hostStart, RequestCount(Decoded(p.reps))))
                && (agent.clipboard != old(agent.clipboard) <==> LandsChunked(p, hostStart, env))
    {
      hide Holds, Bounded, TouchedBy, OnTime, Reaches, Decoded;
      ghost var idle := agent.upload.None? && 1 <= |transferId| <= 64;
      k := 1;
      var begun := BeginUpload(transferId, p, hostStart, env);
      if begun.Err? {
        return begun, k;
      }
      var sent;
      sent, k := SendReps(transferId, p, hostStart, env);
      if sent.Err? {
        return sent, k + 1;
      }
      r := CommitUpload(transferId, p, hostStart, env, k);
      k := k + 1;
    }

    method BeginUpload(transferId: string, p: HostParams, hostStart: int, env: nat -> Env) returns (r: Result<()>)
      requires Bounded(agent.upload) && Legal(p)
      modifies agent
      ensures Bounded(agent.upload) && agent.clipboard == old(agent.clipboard)
      ensures r.Ok? ==> Holds(agent.upload, BeginFor(transferId, p), Decoded(p.reps), 0, 0)
      ensures old(agent.upload).None? && 1 <= |transferId| <= 64 ==>
                (r.Ok? <==> OnTime(env, hostStart, 0)) && (r.Ok? ==> TouchedBy(agent.upload, env, 1))
    {
      ghost var before := agent.upload;
      if before.None? && 1 <= |transferId| <= 64 && env(0).hostNow - hostStart < WRITE_TRANSFER_TIMEOUT_MS {
        BeginAccepted(before, transferId, p, env, hostStart);
      }
      var begun := Send(Begin(BeginParams(transferId, p.transient, Decls(p.reps)), env(0).clock), hostStart, env(0));
      if begun.Err? {
        return Err(begun.error);
      }
      BegunHolds(before, transferId, p, env(0));
      return Ok(());
    }

    /** The last request of an upload that has been sent whole. */
    method CommitUpload(transferId: string, p: HostParams, hostStart: int, env: nat -> Env, k: nat)
      returns (r: Result<()>)
      requires Bounded(agent.upload)
      requires Holds(agent.upload, BeginFor(transferId, p), Decoded(p.reps), |p.reps|, 0)
      modifies agent
      ensures Bounded(agent.upload)
      ensures r.Ok? ==> agent.clipboard == old(agent.clipboard) + [Intended(p)]
      ensures agent.clipboard == old(agent.clipboard) || agent.clipboard == old(agent.clipboard) + [Intended(p)]
      ensures r.Err? && !env(k).fate.ReplyLost? ==> agent.clipboard == old(agent.clipboard)
      ensures old(TouchedBy(agent.upload, env, k)) ==>
                && (r.Ok? <==> OnTime(env, hostStart, k))
                && (agent.clipboard != old(agent.clipboard) <==> Reaches(env, hostStart, k))
    {
      ghost var full := agent.upload;
      if TouchedBy(full, env, k) && env(k).hostNow - hostStart < WRITE_TRANSFER_TIMEOUT_MS {
        CommitAccepted(full, transferId, p, env, hostStart, k);
      }
      CommitWritesIntended(full, transferId, p, env(k));
      CommitAnswers(full, transferId, env(k));
      var committed := Send(Commit(transferId, env(k).clock), hostStart, env(k));
      r := if committed.Err? then Err(committed.error) else Ok(());
    }

    /** Decodes and checks the representations in order. */
    method CheckReps(reps: seq<HostRep>) returns (fault: Option<ErrorCode>)
      ensures fault == RepsFault(reps)
    {
      var total := 0;
      for i := 0 to |reps|
        invariant RepsFault(reps[..i]).None? && total == TotalBytes(reps[..i])
      {
        assert reps[..i + 1][..i] == reps[..i];
        fault := RepFault(total, reps[i]);
        if fault.Some? {
          RepsFaultStays(reps, i + 1);
          return;
        }
        total := total + |reps[i].b64.decoded|;
      }
      assert reps[..|reps|] == reps;
      return None;
    }

    /**
     * End to end. Whatever the channel does, the agent never puts anything on the clipboard but the
     * caller's own write, at most once; an ok means it did. To an idle agent the outcome is exact:
     * ok if and only if every request was on time, and written if and only if every request before
     * the last was on time and the last reached the agent in time, answered or not. So an error
     * hides a write exactly when only the last reply was lost.
     */
    method Write(
        p: HostParams, envelopeBytes: nat, supportsChunks: bool, transferId: string, hostStart: int, env: nat -> Env)
      returns (r: Result<()>)
      requires Bounded(agent.upload)
      modifies this, agent
      ensures Bounded(agent.upload) && active == old(active)
      ensures r.Ok? ==> Legal(p) && agent.clipboard == old(agent.clipboard) + [Intended(p)]
      ensures agent.clipboard == old(agent.clipboard) || agent.clipboard == old(agent.clipboard) + [Intended(p)]
      ensures old(active) || !Legal(p) ==> r.Err? && agent.clipboard == old(agent.clipboard)
      ensures r.Err? && !LastReplyLost(p, envelopeBytes, env) ==> agent.clipboard == old(agent.clipboard)
      ensures !old(active) && Legal(p) && old(agent.upload).None? && 1 <= |transferId| <= 64 ==>
                && (r.Ok? <==> Succeeds(p, envelopeBytes, supportsChunks, hostStart, env))
                && (agent.clipboard != old(agent.clipboard)
                    <==> Lands(p, envelopeBytes, supportsChunks, hostStart, env))
                && (r.Err? && agent.clipboard != old(agent.clipboard) <==>
                      Lands(p, envelopeBytes, supportsChunks, hostStart, env) && LastReplyLost(p, envelopeBytes, env))
    {
      if Lands(p, envelopeBytes, supportsChunks, hostStart, env) {
        UnnoticedIffReplyLost(p, envelopeBytes, supportsChunks, hostStart, env);
      }
      if active {
        return Err(TooMany);
      }
      if |p.reps| == 0 || |p.reps| > MAX_WRITE_REPS {
        return Err(TooMany);
      }
      active := true;
      var fault := CheckReps(p.reps);
      if fault.Some? {
        r := Err(fault.value);
      } else if envelopeBytes + EncodedLength(p.reps) <= MAX_LINE_BYTES {
        IntendedFits(p);
        r := agent.RequestInline(Intended(p), env(0));
      } else if !supportsChunks {
        r := Err(LineTooLong);
      } else {
        r := Upload(transferId, p, hostStart, env);
      }
      active := false;
    }
  }

  predicate Inline(p: HostParams, envelopeBytes: nat) {
    envelopeBytes + EncodedLength(p.reps) <= MAX_LINE_BYTES
  }

  /** The chunked write lands: everything was on time, but the last answer may be lost. */
  ghost predicate LandsChunked(p: HostParams, hostStart: int, env: nat -> Env) {
    var last := RequestCount(Decoded(p.reps)) - 1;
    AllOnTime(env, hostStart, last) && Reaches(env, hostStart, last)
  }

  /** The write reaches the clipboard of an idle agent. */
  ghost predicate Lands(p: HostParams, envelopeBytes: nat, supportsChunks: bool, hostStart: int, env: nat -> Env) {
    if Inline(p, envelopeBytes) then env(0).fate.Delivered? || env(0).fate.ReplyLost?
    else supportsChunks && LandsChunked(p, hostStart, env)
  }

  /** And the host learns of it. */
  ghost predicate Succeeds(p: HostParams, envelopeBytes: nat, supportsChunks: bool, hostStart: int, env: nat -> Env) {
    if Inline(p, envelopeBytes) then env(0).fate.Delivered?
    else supportsChunks && AllOnTime(env, hostStart, RequestCount(Decoded(p.reps)))
  }

  /** What landed unnoticed is what landed with its last reply lost. */
  lemma UnnoticedIffReplyLost(p: HostParams, envelopeBytes: nat, supportsChunks: bool, hostStart: int, env: nat -> Env)
    requires Lands(p, envelopeBytes, supportsChunks, hostStart, env)
    ensures !Succeeds(p, envelopeBytes, supportsChunks, hostStart, env) <==> LastReplyLost(p, envelopeBytes, env)
  {
    if !Inline(p, envelopeBytes) {
      var last := RequestCount(Decoded(p.reps)) - 1;
      assert OnTime(env, hostStart, last) <==> !env(last).fate.ReplyLost?;
    }
  }

  /** What becomes of the request that does the writing. */
  ghost predicate LastReplyLost(p: HostParams, envelopeBytes: nat, env: nat -> Env) {
    if Inline(p, envelopeBytes) then env(0).fate.ReplyLost?
    else env(RequestCount(Decoded(p.reps)) - 1).fate.ReplyLost?
  }

  function EncodedLength(reps: seq<HostRep>): nat {
    if reps == [] then 0 else EncodedLength(reps[..|reps| - 1]) + reps[|reps| - 1].b64.length
  }

  lemma CommitAnswers(u: State, id: string, e: Env)
    requires WellShaped(u)
    ensures var reply := Arrive(u, Commit(id, e.clock), e).1;
            reply.Some? && !reply.value.Failed? ==> reply.value.Committed?
  {
  }

  lemma {:induction false} RepsFaultStays(reps: seq<HostRep>, n: nat)
    requires n <= |reps| && RepsFault(reps[..n]).Some?
    ensures RepsFault(reps) == RepsFault(reps[..n])
  {
    if n == |reps| {
      assert reps[..n] == reps;
    } else {
      assert reps[..|reps| - 1][..n] == reps[..n];
      RepsFaultStays(reps[..|reps| - 1], n);
    }
  }

  // ---- a write that was reported as failed ---------------------------------------------------

  /** Everything in time and answered, but for the reply to request k. */
  function LosingReply(k: nat): nat -> Env {
    (i: nat) => Env(0, if i == k then ReplyLost else Delivered, Clock(0, 0, 0), None)
  }

  /** A large write of one representation whose last reply is lost: an error, and it was written. */
  method ReportedFailedYetWritten(size: nat) returns (r: Result<()>, clipboard: seq<WriteParams>, intended: WriteParams)
    requires MAX_LINE_BYTES <= size <= MAX_REP_BYTES
    ensures r.Err? && clipboard == [intended]
  {
    var bytes: Bytes := seq(size, _ => 0);
    var rep := HostRep("text/plain", None, EncodedText((size + 2) / 3 * 4, bytes, true));
    var p := HostParams([rep], false);
    OneRep(rep);
    var agent := new Agent();
    var transport := new WriteTransport(agent);
    var n := RequestCount(Decoded(p.reps));
    LosesOnlyTheLast(n - 1);
    r := transport.Write(p, 0, true, "t", 0, LosingReply(n - 1));
    clipboard, intended := agent.clipboard, Intended(p);
  }

  lemma OneRep(rep: HostRep)
    requires rep.mime == "text/plain" && rep.uti == None && rep.b64.canonical
    requires MAX_LINE_BYTES <= |rep.b64.decoded| <= MAX_REP_BYTES
    ensures Legal(HostParams([rep], false)) && EncodedLength([rep]) > MAX_LINE_BYTES
  {
    assert [rep][..0] == [];
    LegalIffLimits([rep]);
  }

  lemma LosesOnlyTheLast(last: nat)
    ensures var env := LosingReply(last);
            AllOnTime(env, 0, last) && Reaches(env, 0, last) && env(last).fate.ReplyLost?
  {
  }
}
