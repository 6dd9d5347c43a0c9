/** The values every component exchanges: bytes, ideal content hashes, items, patches, error codes. */
module Domain {
  datatype Option<+T> = None | Some(value: T)

  datatype Result<+T> = Ok(value: T) | Err(error: ErrorCode)

  datatype ErrorCode =
    | Timeout | BadParams | LineTooLong | StreamUnknownId | SeqGap | SeqDuplicate | BadBase64
    | RepAfterFinal | RepOverflow | RepShort | HashMismatch | RepTimeout | TooMany
    | StoreIo | StoreCorrupt | StoreDecrypt | ChainBroken | BlobMissing
    | ItemNotFound | PinRefusedSecret | TagLimit | TagInvalid | ChannelLost

  type Byte = b: int | 0 <= b < 256
  type Bytes = seq<Byte>

  /** A collision-free content hash: two byte strings hash alike exactly when they are equal. */
  datatype ContentHash = HashOf(bytes: Bytes)
  type BlobId = ContentHash

  const CHUNK_THRESHOLD_BYTES := 65_536
  const CHUNK_PAYLOAD_BYTES := 32_768
  const MAX_REP_BYTES := 20_971_520
  const MAX_LINE_BYTES := 1_048_576
  const REP_STREAM_TIMEOUT_MS := 5_000
  const MAX_CONCURRENT_REP_STREAMS := 8
  const MAX_WRITE_REPS := 8
  const MAX_WRITE_BYTES := 67_108_864
  const WRITE_TRANSFER_TIMEOUT_MS := 30_000
  const TITLE_MAX_CHARS := 120
  const TAGS_MAX_PER_ITEM := 8
  const TABS_MAX := 32
  const SECRET_TTL_MS := 300_000

  type ItemId = string

  datatype RepRef = RepRef(mime: string, uti: Option<string>, byteLength: nat, sha256: ContentHash, blobId: BlobId)

  /** A representation with its bytes at hand. */
  datatype ResolvedRep = ResolvedRep(
    mime: string, uti: Option<string>, bytes: Bytes, byteLength: nat, sha256: ContentHash)

  datatype Detector = HighEntropy | Named(name: string)
  datatype MaskSpan = MaskSpan(start: int, end: int, detector: Detector)

  /**
   * An item as it is stored. Records written before titles and tabs existed lack those keys:
   * `title == None` is an absent key, `Some(None)` is an explicit null.
   */
  datatype Item = Item(
    id: ItemId,
    title: Option<Option<string>>,
    contentHash: ContentHash,
    preview: string,
    previewTruncated: bool,
    maskSpans: seq<MaskSpan>,
    secret: bool,
    repRefs: seq<RepRef>,
    thumbnailBlobId: Option<BlobId>,
    byteLength: nat,
    createdAt: int,
    updatedAt: int,
    pinned: bool,
    tags: Option<seq<string>>,
    expiresAt: Option<int>)

  /** Only the keys that are present override the item's. */
  datatype ItemPatch = ItemPatch(
    updatedAt: int,
    title: Option<Option<string>>,
    pinned: Option<bool>,
    tags: Option<seq<string>>,
    expiresAt: Option<Option<int>>)

  datatype DeleteReason = ByUser | RetentionCount | RetentionAge | RetentionBytes | SecretTtl | Rekey

  function TagsOf(it: Item): seq<string> {
    if it.tags.Some? then it.tags.value else []
  }

  function TitleOf(it: Item): Option<string> {
    if it.title.Some? then it.title.value else None
  }

  /** The blobs an item refers to, through a representation or through its thumbnail. */
  function BlobIds(it: Item): set<BlobId> {
    (set i | 0 <= i < |it.repRefs| :: it.repRefs[i].blobId)
    + (if it.thumbnailBlobId.Some? then {it.thumbnailBlobId.value} else {})
  }

  function Patched(it: Item, p: ItemPatch): Item {
    it.(updatedAt := p.updatedAt,
        title := if p.title.Some? then p.title else it.title,
        pinned := if p.pinned.Some? then p.pinned.value else it.pinned,
        tags := if p.tags.Some? then p.tags else it.tags,
        expiresAt := if p.expiresAt.Some? then p.expiresAt.value else it.expiresAt)
  }
}
