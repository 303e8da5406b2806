/** Client and server messages, with the fields the server or a receiver reads. */
module Wire {
  import opened ByteStrings
  import opened Wrappers

  type ContentId = Hash32

  type Locator = Hash32

  datatype GroupKey = GroupKey(epoch: nat, key: Hash32)

  datatype ContentKind = Text | ImagePng | Files

  datatype SignalHdr = SignalHdr(id: ContentId, epoch: nat, ctSize: nat)

  datatype KeyUpdate = KeyUpdate(to: DeviceId, epoch: nat, wrap: Bytes)

  datatype RejectReason = Gone | TooLarge | Busy | OriginOffline | KindDisabled | SyncDisabled

  datatype AbortReason = Superseded | Cancelled | InternalError

  datatype AppendRejectReason = NotAuthorized | Conflict | Malformed

  datatype ErrorCode = NotMember | VersionIncompatible | ProtocolError

  /** A signal together with the origin the server stamped on it. */
  datatype Signal = Signal(origin: DeviceId, hdr: SignalHdr, e2e: Bytes)

  datatype PresenceEntry = PresenceEntry(
    deviceId: DeviceId,
    online: bool,
    addr: Option<string>,
    encProfile: Option<Bytes>)

  datatype C2s =
    | Hello(protoMin: nat, protoMax: nat, headSeq: nat, headHash: Hash32)
    | ClaimWorkspace(token: Bytes, genesis: Bytes)
    | GetInviteBlob(locator: Locator)
    | GetLog(fromSeq: nat)
    | AppendEntry(entry: Bytes)
    | PutInvite(locator: Locator, blob: Bytes)
    | RevokeInvite(locator: Locator)
    | PutKeyUpdate(updates: seq<KeyUpdate>)
    | ClipSignal(hdr: SignalHdr, e2e: Bytes)
    | ContentRequest(id: ContentId)
    | ContentBegin(id: ContentId, ctSize: nat, chunkCount: nat, chunkSize: nat)
    | ContentChunk(id: ContentId, index: nat, data: Bytes)
    | ContentAbort(id: ContentId, abortReason: AbortReason)
    | ContentReject(id: ContentId, rejectReason: RejectReason)
    | SetProfile(profile: Bytes)
    | Leave
    | Ping(nonce: nat)
    | Bye

  datatype S2c =
    | Welcome(version: nat, epoch: nat, logTail: seq<Bytes>, pendingKeyUpdate: Option<Bytes>,
              presence: seq<PresenceEntry>, head: seq<Signal>)
    | InviteBlob(invite: Option<Bytes>)
    | LogEntries(entries: seq<Bytes>)
    | AppendAck(seqNo: nat, headHash: Hash32)
    | AppendReject(appendReason: AppendRejectReason)
    | SignalFanout(signal: Signal)
    | ContentPull(id: ContentId)
    | ContentBegin(id: ContentId, ctSize: nat, chunkCount: nat, chunkSize: nat)
    | ContentChunk(id: ContentId, index: nat, data: Bytes)
    | ContentReject(id: ContentId, rejectReason: RejectReason)
    | ContentAbort(id: ContentId, abortReason: AbortReason)
    | LogAppended(entry: Bytes, seqNo: nat)
    | KeyUpdatePush(wrap: Bytes)
    | Presence(deviceId: DeviceId, online: bool, addr: Option<string>, encProfile: Option<Bytes>)
    | Pong(nonce: nat)
    | Error(code: ErrorCode)
}
