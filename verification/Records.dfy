/** Sealed records and the hash chain over them. */
module Records {
  import opened Domain

  datatype Kind = ItemAdded | ItemUpdated | ItemDeleted | Checkpoint | TabCreated | TabDeleted

  const RECORD_KINDS: seq<Kind> := [ItemAdded, ItemUpdated, ItemDeleted, Checkpoint, TabCreated, TabDeleted]

  /** Line 0 of every generation is sealed under this fixed number: its reader knows no seq yet. */
  const ANCHOR_AAD_SEQ := 0

  datatype Body =
    | AddItem(item: Item)
    | UpdateItem(id: ItemId, patch: ItemPatch)
    | DeleteItem(id: ItemId, reason: DeleteReason)
    | CreateTab(tag: string)
    | DeleteTab(tag: string)
    | Mark(maxSeq: int, liveItemCount: int)

  function KindOf(b: Body): Kind {
    match b
    case AddItem(_) => ItemAdded
    case UpdateItem(_, _) => ItemUpdated
    case DeleteItem(_, _) => ItemDeleted
    case CreateTab(_) => TabCreated
    case DeleteTab(_) => TabDeleted
    case Mark(_, _) => Checkpoint
  }

  datatype StoreEvent = StoreEvent(seqNo: int, at: int, body: Body)

  /**
   * The chain hash as a free constructor: nothing but the previous hash and the sealed line
   * themselves produce it, so it has no collisions.
   */
  datatype Hash = Genesis | Next(prev: Hash, line: Line)

  datatype Payload = Payload(seqNo: int, at: int, kind: Kind, prev: Hash, body: Body)

  /** What a record is bound to. The byte layout is RecordAad below. */
  datatype Aad = Aad(lineIndex: int, seqNo: int, kind: Kind)

  /** A line sealed under the store's key, or any other text, which never authenticates. */
  datatype Line = Sealed(nonce: nat, aad: Aad, payload: Payload) | Foreign(text: string)

  // ---- authenticated bytes -------------------------------------------------------------------

  const STORE_AAD_MAGIC: Bytes :=
    [99, 97, 105, 114, 110, 47, 115, 116, 111, 114, 101, 47, 118, 49]

  function Ascii(s: string): (bytes: Bytes)
    requires forall i :: 0 <= i < |s| ==> s[i] as int < 128
  {
    seq(|s|, i requires 0 <= i < |s| => s[i] as int)
  }

  function KindName(k: Kind): (name: string)
    ensures forall i :: 0 <= i < |name| ==> name[i] as int < 128
  {
    match k
    case ItemAdded => "ITEM_ADDED"
    case ItemUpdated => "ITEM_UPDATED"
    case ItemDeleted => "ITEM_DELETED"
    case Checkpoint => "CHECKPOINT"
    case TabCreated => "TAB_CREATED"
    case TabDeleted => "TAB_DELETED"
  }

  /** The `width` low-order base-256 digits of n, most significant first. */
  function BigEndian(n: nat, width: nat): (bytes: Bytes)
    ensures |bytes| == width
  {
    if width == 0 then [] else BigEndian(n / 256, width - 1) + [n % 256]
  }

  function Power256(width: nat): (p: nat)
    ensures p > 0
  {
    if width == 0 then 1 else 256 * Power256(width - 1)
  }

  const U64_BOUND := 0x1_0000_0000_0000_0000

  /** Counters that fit the eight bytes they are written to; no record is sealed under any other. */
  predicate Writable(a: Aad) {
    0 <= a.lineIndex < U64_BOUND && 0 <= a.seqNo < U64_BOUND
  }

  function RecordAad(a: Aad): Bytes
    requires Writable(a)
  {
    STORE_AAD_MAGIC + (BigEndian(a.lineIndex, 8) + (BigEndian(a.seqNo, 8) + Ascii(KindName(a.kind))))
  }

  lemma {:induction false} BigEndianInjective(m: nat, n: nat, width: nat)
    requires m < Power256(width) && n < Power256(width)
    requires BigEndian(m, width) == BigEndian(n, width)
    ensures m == n
  {
    if width > 0 {
      var a, b := BigEndian(m, width), BigEndian(n, width);
      assert a[..width - 1] == BigEndian(m / 256, width - 1);
      assert b[..width - 1] == BigEndian(n / 256, width - 1);
      assert a[width - 1] == m % 256 && b[width - 1] == n % 256;
      BigEndianInjective(m / 256, n / 256, width - 1);
    }
  }

  lemma KindNameInjective(j: Kind, k: Kind)
    requires Ascii(KindName(j)) == Ascii(KindName(k))
    ensures j == k
  {
    var a, b := Ascii(KindName(j)), Ascii(KindName(k));
    assert |KindName(j)| == |a| == |b| == |KindName(k)|;
    if |a| == 11 {
      assert a[0] == b[0] && a[4] == b[4];
    } else if |a| == 10 {
      assert a[0] == b[0];
    } else {
      assert a[5] == b[5];
      assert a[0] == b[0];
      assert KindName(j)[0] == KindName(k)[0];
    }
  }

  lemma ConcatInjective(a: Bytes, b: Bytes, c: Bytes, d: Bytes)
    requires |a| == |c| && a + b == c + d
    ensures a == c && b == d
  {
    assert a == (a + b)[..|a|] && b == (a + b)[|a|..];
    assert c == (c + d)[..|c|] && d == (c + d)[|c|..];
  }

  /** The bytes a record is bound to determine its line index, its seq and its kind. */
  lemma RecordAadInjective(a: Aad, b: Aad)
    requires Writable(a) && Writable(b)
    ensures RecordAad(a) == RecordAad(b) <==> a == b
  {
    if RecordAad(a) == RecordAad(b) {
      var aName, bName := Ascii(KindName(a.kind)), Ascii(KindName(b.kind));
      var aSeq, bSeq := BigEndian(a.seqNo, 8), BigEndian(b.seqNo, 8);
      var aLine, bLine := BigEndian(a.lineIndex, 8), BigEndian(b.lineIndex, 8);
      ConcatInjective(STORE_AAD_MAGIC, aLine + (aSeq + aName), STORE_AAD_MAGIC, bLine + (bSeq + bName));
      ConcatInjective(aLine, aSeq + aName, bLine, bSeq + bName);
      ConcatInjective(aSeq, aName, bSeq, bName);
      assert Power256(8) == U64_BOUND by {
        assert Power256(2) == 65536;
        assert Power256(4) == 0x1_0000_0000;
        assert Power256(6) == 0x1_0000_0000_0000;
      }
      BigEndianInjective(a.lineIndex, b.lineIndex, 8);
      BigEndianInjective(a.seqNo, b.seqNo, 8);
      KindNameInjective(a.kind, b.kind);
    }
  }

  // ---- opening -------------------------------------------------------------------------------

  /** Authentication compares bytes; the bytes tell apart what a record may be bound to. */
  predicate Authenticates(sealed: Aad, claimed: Aad): (same: bool)
    ensures same <==> sealed == claimed
  {
    if Writable(sealed) && Writable(claimed)
    then
      RecordAadInjective(sealed, claimed);
      RecordAad(sealed) == RecordAad(claimed)
    else sealed == claimed
  }

  /** Ideal authenticated encryption: a line opens under exactly the bytes it was sealed under. */
  function OpenRecord(line: Line, aad: Aad): Result<Payload> {
    if line.Sealed? && Authenticates(line.aad, aad) then Ok(line.payload) else Err(StoreDecrypt)
  }

  datatype Opened = Opened(kind: Kind, payload: Payload)

  function OpenedAnyKind(line: Line, lineIndex: int, seqNo: int): Result<Opened> {
    if line.Sealed? && line.aad.lineIndex == lineIndex && line.aad.seqNo == seqNo
    then Ok(Opened(line.aad.kind, line.payload))
    else Err(StoreDecrypt)
  }

  lemma EveryKindIsListed(k: Kind)
    ensures k in RECORD_KINDS
  {
    assert RECORD_KINDS[0] == ItemAdded && RECORD_KINDS[1] == ItemUpdated && RECORD_KINDS[2] == ItemDeleted;
    assert RECORD_KINDS[3] == Checkpoint && RECORD_KINDS[4] == TabCreated && RECORD_KINDS[5] == TabDeleted;
  }

  /** Tries each kind in turn; the kind a record was sealed under is the one it opens as. */
  method OpenRecordAnyKind(line: Line, lineIndex: int, seqNo: int) returns (r: Result<Opened>)
    ensures r == OpenedAnyKind(line, lineIndex, seqNo)
  {
    for i := 0 to |RECORD_KINDS|
      invariant forall j :: 0 <= j < i ==> OpenRecord(line, Aad(lineIndex, seqNo, RECORD_KINDS[j])).Err?
    {
      var attempt := OpenRecord(line, Aad(lineIndex, seqNo, RECORD_KINDS[i]));
      if attempt.Ok? {
        return Ok(Opened(RECORD_KINDS[i], attempt.value));
      }
    }
    if line.Sealed? {
      EveryKindIsListed(line.aad.kind);
    }
    return Err(StoreDecrypt);
  }

  // ---- the chain -----------------------------------------------------------------------------

  /** The tip after folding every line in file order. */
  function ChainTip(lines: seq<Line>): Hash {
    if lines == [] then Genesis else Next(ChainTip(lines[..|lines| - 1]), lines[|lines| - 1])
  }

  method ComputeChainTip(lines: seq<Line>) returns (tip: Hash)
    ensures tip == ChainTip(lines)
  {
    tip := Genesis;
    for i := 0 to |lines|
      invariant tip == ChainTip(lines[..i])
    {
      assert lines[..i + 1][..i] == lines[..i];
      tip := Next(tip, lines[i]);
    }
    assert lines[..|lines|] == lines;
  }

  /** A tip commits to every line below it. */
  lemma {:induction false} ChainTipInjective(a: seq<Line>, b: seq<Line>)
    requires ChainTip(a) == ChainTip(b)
    ensures a == b
  {
    if a != [] && b != [] {
      ChainTipInjective(a[..|a| - 1], b[..|b| - 1]);
      assert a == a[..|a| - 1] + [a[|a| - 1]];
      assert b == b[..|b| - 1] + [b[|b| - 1]];
    }
  }
}
