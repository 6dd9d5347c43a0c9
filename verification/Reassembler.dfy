/** Rebuilds chunked representations from interleaved streams, several at a time. */
module Reassembler {
  import opened Domain

  type RepId = string

  /** A representation as it is declared on the wire. */
  datatype WireRep = WireRep(
    mime: string, uti: Option<string>, byteLength: nat, sha256: ContentHash,
    inline: Option<Bytes>, repId: Option<RepId>)

  /** `data` is absent when the chunk's text is not strict base64. */
  datatype ChunkIn = ChunkIn(repId: RepId, seqNo: int, final: bool, data: Option<Bytes>)

  datatype Stream = Stream(
    mime: string, uti: Option<string>, declaredBytes: nat, declaredHash: ContentHash,
    parts: seq<Bytes>, receivedBytes: nat, expectedSeq: nat)

  type Streams = map<RepId, Stream>

  /** What the consumer is told about a stream: at most one of these, and then it is closed. */
  datatype Outcome = Completed(repId: RepId, rep: ResolvedRep) | AbortedRep(repId: RepId, mime: string, code: ErrorCode)

  function Flatten(parts: seq<Bytes>): Bytes {
    if parts == [] then [] else Flatten(parts[..|parts| - 1]) + parts[|parts| - 1]
  }

  function NewStream(rep: WireRep): Stream {
    Stream(rep.mime, rep.uti, rep.byteLength, rep.sha256, [], 0, 0)
  }

  function DeclareStep(streams: Streams, rep: WireRep, repId: RepId): (Streams, Option<Outcome>) {
    if repId in streams || |streams| >= MAX_CONCURRENT_REP_STREAMS
    then (streams, Some(AbortedRep(repId, rep.mime, TooMany)))
    else if rep.byteLength > MAX_REP_BYTES then (streams, Some(AbortedRep(repId, rep.mime, RepOverflow)))
    else (streams[repId := NewStream(rep)], None)
  }

  function AbortStep(streams: Streams, repId: RepId, code: ErrorCode): (Streams, Option<Outcome>)
    requires repId in streams
  {
    (streams - {repId}, Some(AbortedRep(repId, streams[repId].mime, code)))
  }

  function Grown(s: Stream, data: Bytes): Stream {
    s.(parts := s.parts + [data], receivedBytes := s.receivedBytes + |data|, expectedSeq := s.expectedSeq + 1)
  }

  function FinalStep(streams: Streams, repId: RepId, s: Stream): (Streams, Option<Outcome>) {
    var assembled := Flatten(s.parts);
    if s.receivedBytes != s.declaredBytes then (streams - {repId}, Some(AbortedRep(repId, s.mime, RepShort)))
    else if HashOf(assembled) != s.declaredHash then (streams - {repId}, Some(AbortedRep(repId, s.mime, HashMismatch)))
    else (streams - {repId},
          Some(Completed(repId, ResolvedRep(s.mime, s.uti, assembled, |assembled|, HashOf(assembled)))))
  }

  function ChunkStep(streams: Streams, c: ChunkIn): (Streams, Option<Outcome>) {
    if c.repId !in streams then (streams, None)
    else
      var s := streams[c.repId];
      if c.seqNo < s.expectedSeq then AbortStep(streams, c.repId, SeqDuplicate)
      else if c.seqNo > s.expectedSeq then AbortStep(streams, c.repId, SeqGap)
      else if c.data.None? then AbortStep(streams, c.repId, BadBase64)
      else if s.receivedBytes + |c.data.value| > s.declaredBytes || s.receivedBytes + |c.data.value| > MAX_REP_BYTES
      then AbortStep(streams, c.repId, RepOverflow)
      else
        var grown := Grown(s, c.data.value);
        if !c.final then (streams[c.repId := grown], None) else FinalStep(streams, c.repId, grown)
  }

  // ---- what every step keeps -----------------------------------------------------------------

  ghost predicate StreamBounded(s: Stream) {
    && s.receivedBytes == |Flatten(s.parts)| <= s.declaredBytes <= MAX_REP_BYTES
    && s.expectedSeq == |s.parts|
  }

  ghost predicate Bounded(streams: Streams) {
    |streams| <= MAX_CONCURRENT_REP_STREAMS && forall id :: id in streams ==> StreamBounded(streams[id])
  }

  lemma FlattenAppend(parts: seq<Bytes>, data: Bytes)
    ensures Flatten(parts + [data]) == Flatten(parts) + data
  {
    assert (parts + [data])[..|parts|] == parts;
  }

  lemma RemovalShrinks(streams: Streams, id: RepId)
    requires id in streams
    ensures |streams - {id}| == |streams| - 1
  {
    assert (streams - {id}).Keys == streams.Keys - {id};
    assert |streams.Keys| == |streams| && |(streams - {id}).Keys| == |streams - {id}|;
  }

  lemma UpdateSize(streams: Streams, id: RepId, s: Stream)
    ensures |streams[id := s]| == if id in streams then |streams| else |streams| + 1
  {
    assert streams[id := s].Keys == streams.Keys + {id};
    assert |streams.Keys| == |streams| && |streams[id := s].Keys| == |streams[id := s]|;
  }

  lemma DeclareKeepsBounds(streams: Streams, rep: WireRep, repId: RepId)
    requires Bounded(streams)
    ensures Bounded(DeclareStep(streams, rep, repId).0)
  {
    UpdateSize(streams, repId, NewStream(rep));
  }

  lemma ChunkKeepsBounds(streams: Streams, c: ChunkIn)
    requires Bounded(streams)
    ensures Bounded(ChunkStep(streams, c).0)
  {
    hide Flatten;
    if c.repId in streams {
      RemovalKeepsBounds(streams, c.repId);
      if c.data.Some? {
        FlattenAppend(streams[c.repId].parts, c.data.value);
        UpdateSize(streams, c.repId, Grown(streams[c.repId], c.data.value));
      }
    }
  }

  lemma RemovalKeepsBounds(streams: Streams, id: RepId)
    requires Bounded(streams) && id in streams
    ensures Bounded(streams - {id})
  {
    hide StreamBounded;
    RemovalShrinks(streams, id);
  }

  ghost function BufferedBytes(streams: Streams): nat
    decreases |streams|
  {
    if streams == map[] then 0
    else
      var id :| id in streams;
      RemovalShrinks(streams, id);
      streams[id].receivedBytes + BufferedBytes(streams - {id})
  }

  /** The reader never buffers more than eight representations' worth. */
  lemma {:induction false} BufferIsBounded(streams: Streams)
    requires forall id :: id in streams ==> streams[id].receivedBytes <= MAX_REP_BYTES
    ensures BufferedBytes(streams) <= |streams| * MAX_REP_BYTES
    decreases |streams|
  {
    if streams != map[] {
      var id :| id in streams && BufferedBytes(streams) == streams[id].receivedBytes + BufferedBytes(streams - {id});
      RemovalShrinks(streams, id);
      BufferIsBounded(streams - {id});
    }
  }

  /** What a chunk may complete: the declared length and hash, made of exactly the parts received. */
  lemma CompletionIsExact(streams: Streams, c: ChunkIn)
    requires Bounded(streams) && ChunkStep(streams, c).1.Some?
    ensures var o := ChunkStep(streams, c).1.value;
            && o.repId == c.repId && c.repId in streams && ChunkStep(streams, c).0 == streams - {c.repId}
            && (o.Completed? ==>
                  && c.data.Some?
                  && o.rep.bytes == Flatten(streams[c.repId].parts) + c.data.value
                  && |o.rep.bytes| == streams[c.repId].declaredBytes == o.rep.byteLength
                  && HashOf(o.rep.bytes) == streams[c.repId].declaredHash == o.rep.sha256
                  && o.rep.mime == streams[c.repId].mime && o.rep.uti == streams[c.repId].uti)
  {
    if c.data.Some? {
      FlattenAppend(streams[c.repId].parts, c.data.value);
    }
  }

  // ---- the object ----------------------------------------------------------------------------

  class Reassembler {
    var streams: Streams
    /** Streams that ended lately: tells a late chunk from one for an unknown stream. */
    var ended: seq<RepId>

    ghost predicate Valid()
      reads this
    {
      Bounded(streams) && |ended| <= MAX_CONCURRENT_REP_STREAMS * 4
    }

    constructor ()
      ensures Valid() && streams == map[]
    {
      streams, ended := map[], [];
    }

    method MarkEnded(repId: RepId)
      requires |ended| <= MAX_CONCURRENT_REP_STREAMS * 4
      modifies this`ended
      ensures |ended| <= MAX_CONCURRENT_REP_STREAMS * 4 && repId in ended
    {
      ended := ended + [repId];
      if |ended| > MAX_CONCURRENT_REP_STREAMS * 4 {
        ended := ended[1..];
      }
      assert ended[|ended| - 1] == repId;
    }

    method Declare(rep: WireRep, repId: RepId) returns (o: Option<Outcome>)
      requires Valid()
      modifies this`streams
      ensures Valid() && (streams, o) == DeclareStep(old(streams), rep, repId)
    {
      DeclareKeepsBounds(streams, rep, repId);
      if repId in streams || |streams| >= MAX_CONCURRENT_REP_STREAMS {
        return Some(AbortedRep(repId, rep.mime, TooMany));
      }
      if rep.byteLength > MAX_REP_BYTES {
        return Some(AbortedRep(repId, rep.mime, RepOverflow));
      }
      streams := streams[repId := Stream(rep.mime, rep.uti, rep.byteLength, rep.sha256, [], 0, 0)];
      return None;
    }

    /** `ignored` is the code logged for a chunk that belongs to no open stream. */
    method Chunk(c: ChunkIn) returns (o: Option<Outcome>, ignored: Option<ErrorCode>)
      requires Valid()
      modifies this
      ensures Valid() && (streams, o) == ChunkStep(old(streams), c)
      ensures ignored.Some? <==> c.repId !in old(streams)
      ensures ignored.Some? ==> ignored.value == if c.repId in old(ended) then RepAfterFinal else StreamUnknownId
    {
      ChunkKeepsBounds(streams, c);
      if c.repId !in streams {
        return None, Some(if c.repId in ended then RepAfterFinal else StreamUnknownId);
      }
      ignored := None;
      var s := streams[c.repId];
      if c.seqNo < s.expectedSeq {
        o := Abort(c.repId, SeqDuplicate);
      } else if c.seqNo > s.expectedSeq {
        o := Abort(c.repId, SeqGap);
      } else if c.data.None? {
        o := Abort(c.repId, BadBase64);
      } else if s.receivedBytes + |c.data.value| > s.declaredBytes || s.receivedBytes + |c.data.value| > MAX_REP_BYTES {
        o := Abort(c.repId, RepOverflow);
      } else {
        s := Grown(s, c.data.value);
        if !c.final {
          streams := streams[c.repId := s];
          return None, None;
        }
        MarkEnded(c.repId);
        var (rest, outcome) := FinalStep(streams, c.repId, s);
        streams := rest;
        o := outcome;
      }
    }

    method Abort(repId: RepId, code: ErrorCode) returns (o: Option<Outcome>)
      requires Bounded(streams) && repId in streams
      modifies this`streams
      ensures Bounded(streams) && (streams, o) == AbortStep(old(streams), repId, code)
    {
      RemovalShrinks(streams, repId);
      o := Some(AbortedRep(repId, streams[repId].mime, code));
      streams := streams - {repId};
    }
  }
}
