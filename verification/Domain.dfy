/** The values the sync engine works on: paths, file contents, digests, index
    records, plan entries and queued operations. */
module Domain {
  import opened Wrappers

  const I64_MAX: nat := 0x7FFF_FFFF_FFFF_FFFF
  const U64_MAX: nat := 0xFFFF_FFFF_FFFF_FFFF

  type U64 = n: nat | n <= U64_MAX
  type byte = n: int | 0 <= n < 256
  type Bytes = seq<byte>

  // A file on disk: its length is a signed 64-bit file offset.
  type Content = b: Bytes | |b| <= I64_MAX
  // The size and generation columns of the files table are non-negative 64-bit integers.
  type Size = n: nat | n <= I64_MAX
  type Path = string
  type DeviceId = nat
  type OperationId = nat

  // A content digest. `Blake3` is taken to be collision free; `Foreign` stands
  // for text that is the digest of no content.
  datatype Digest = Blake3(content: Bytes) | Foreign(text: string)

  function SaturatingAdd(a: nat, b: nat): U64 {
    if a + b <= U64_MAX then a + b else U64_MAX
  }

  function SaturatingSub(a: nat, b: nat): nat {
    if b <= a then a - b else 0
  }

  function Min(a: nat, b: nat): nat {
    if a <= b then a else b
  }

  function Max(a: nat, b: nat): nat {
    if a <= b then b else a
  }

  datatype FolderMode = Bidirectional | UploadOnly | DownloadOnly

  datatype FileKind = File | Directory

  datatype FileSyncState =
    | LocalAvailable
    | UnsynchronizedLocalMissing
    | PendingUpload
    | PendingDownload
    | SkippedFolderLimit

  /** One row of the files table, without its key (the path) and its timestamps. */
  datatype FileRecord = FileRecord(
    kind: FileKind,
    size: Size,
    hash: Option<Digest>,
    generation: Size,
    device: DeviceId,
    state: FileSyncState)

  /** What a scan, a download or an upload hands to the index. */
  datatype FileEntry = FileEntry(
    kind: FileKind,
    size: nat,
    hash: Option<Digest>,
    generation: nat,
    device: DeviceId)

  /** The index of one device as its peer sees it; the path is a primary key. */
  datatype Manifest = Manifest(device: DeviceId, files: map<Path, FileRecord>)

  datatype SyncAction =
    | InSync
    | UploadToRemote
    | DownloadFromRemote
    | Conflict
    | LocalMissingUnsynchronized
    | RemoteMissingUnsynchronized
    | ModeBlocked

  datatype Reason =
    | LocalSideMissing
    | RemoteSideMissing
    | RemoteLacksFile
    | LocalLacksFile
    | AbsentOnBothSides
    | ContentMatches
    | ContentDiffers
    | FolderIsUploadOnly
    | FolderIsDownloadOnly
    | UserSelectedRemote
    | UserSelectedLocal

  datatype SyncPlanEntry = SyncPlanEntry(
    path: Path,
    action: SyncAction,
    localSize: Option<nat>,
    remoteSize: Option<nat>,
    localHash: Option<Digest>,
    remoteHash: Option<Digest>,
    reason: Reason)

  datatype SyncPlanSummary = SyncPlanSummary(
    inSync: nat,
    uploadToRemote: nat,
    downloadFromRemote: nat,
    conflicts: nat,
    localMissing: nat,
    remoteMissing: nat,
    modeBlocked: nat)

  datatype SyncPlan = SyncPlan(
    localDevice: DeviceId,
    remoteDevice: DeviceId,
    entries: seq<SyncPlanEntry>,
    summary: SyncPlanSummary)

  datatype OperationKind =
    | Upload
    | Download
    | ResolveConflict
    | RepairLocalMissing
    | RepairRemoteMissing
    | BlockedByMode

  datatype OperationStatus = Pending | Blocked | Done | Failed

  datatype Resolution = TakeRemote | TakeLocal

  /** One row of the sync_operations table. */
  datatype Operation = Operation(
    id: OperationId,
    path: Path,
    kind: OperationKind,
    status: OperationStatus,
    reason: Reason,
    localSize: Option<nat>,
    remoteSize: Option<nat>,
    localHash: Option<Digest>,
    remoteHash: Option<Digest>,
    remoteDevice: DeviceId,
    lastError: Option<TransferError>,
    retryCount: nat,
    created: nat)
  {
    predicate IsTransfer() {
      kind == Upload || kind == Download
    }

    // The reason column is rewritten by `resolve_blocked_sync_operation` only.
    predicate Consented() {
      reason == UserSelectedRemote || reason == UserSelectedLocal
    }
  }

  datatype CoreError =
    | FileSizeOverflow
    | GenerationOverflow
    | OperationNotFound
    | OnlyBlockedCanBeResolved
    | InvalidResolution

  datatype CipherError =
    | UnexpectedPlaintextSize
    | UnexpectedEndOfFile
    | DecryptionFailed
    | TrailingCiphertext

  datatype ServerError =
    | NotFound
    | ServerConflict
    | InvalidRequest
    | RequestTooLarge
    | ContentHashMismatch
    | PeerLimitExceeded
    | ServerFilesystem
    | ServerCipher(cipher: CipherError)

  datatype TransferError =
    | LocalFileMissing
    | LocalPathIsNotFile
    | LocalHashMissing
    | LocalFileChanged
    | RemoteFileMissing
    | RemotePathIsNotFile
    | RemoteHashMissing
    | RemoteFileChanged
    | RemoteTargetExists
    | RemoteDeleteRejected
    | UploadRejected
    | LocalTargetExists
    | SizeMismatch
    | HashMismatch
    | FolderLimitExceeded
    | UnexpectedContentLength
    | PlaintextHashMismatch
    | LocalFilesystem
    | MissingPeerConfig
    | PeerStatus(server: ServerError)
    | PeerCipher(cipher: CipherError)
}
