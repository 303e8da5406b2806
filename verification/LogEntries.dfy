/** Workspace-log entries and the primitives they are hashed, signed and stored with. */
module LogEntries {
  import opened ByteStrings
  import opened Wrappers

  datatype EpochReason = Revoke(removed: DeviceId) | Manual | Periodic | Join

  datatype GrantCert = GrantCert(
    grantPk: Bytes,
    sponsor: DeviceId,
    expiresAt: u64,
    workspaceId: Hash32,
    sig: Bytes)

  datatype LogEntry =
    | Genesis(v: nat, workspaceName: string, creatorSpki: Bytes, creatorKemPk: Hash32, createdAt: u64, sig: Bytes)
    | Add(prevHash: Hash32, seqNo: nat, grantCert: GrantCert, subjectSpki: Bytes, subjectKemPk: Hash32,
          joinedAt: u64, sig: Bytes)
    | Remove(prevHash: Hash32, seqNo: nat, target: DeviceId, ts: u64, remover: DeviceId, sig: Bytes)
    | Epoch(prevHash: Hash32, seqNo: nat, epochNo: nat, rotator: DeviceId, reason: EpochReason,
            memberSetHash: Hash32, wrappedBundleHash: Hash32, ts: u64, sig: Bytes)
    | RotateKem(prevHash: Hash32, seqNo: nat, subject: DeviceId, newKemPk: Hash32, ts: u64, sig: Bytes)
  {
    function Seq(): nat {
      if Genesis? then 0 else seqNo
    }

    function PrevHash(): Option<Hash32> {
      if Genesis? then None else Some(prevHash)
    }
  }

  /** The plaintext of a group-key wrap. */
  datatype RotationBlob = RotationBlob(
    newEpoch: nat,
    groupKey: Hash32,
    reason: EpochReason,
    epochEntryHash: Hash32,
    memberSetHash: Hash32,
    from: DeviceId,
    sig: Bytes)

  /** BLAKE3, SHA-256, P-256 ECDSA, X25519 sealing and CBOR, left uninterpreted: every result
      holds for any choice of these functions that meets the laws it names. */
  datatype Primitives = Primitives(
    blake3: Bytes -> Hash32,
    sha256: Bytes -> Hash32,
    sign: (Bytes, Bytes) -> Bytes,                             // secret key, signing input
    verify: (Bytes, Bytes, Bytes) -> bool,                     // SPKI, signing input, signature
    encodeEntry: LogEntry -> Bytes,
    decodeEntry: Bytes -> Option<LogEntry>,
    encodeGrant: GrantCert -> Bytes,
    encodeBlob: RotationBlob -> Bytes,
    decodeBlob: Bytes -> Option<RotationBlob>,
    kemSeal: (Hash32, Bytes, Bytes, Bytes) -> Option<Bytes>,   // public key, AAD, plaintext, randomness
    kemOpen: (Bytes, Bytes, Bytes) -> Option<Bytes>)           // secret key, AAD, sealed

  /** "sb/log/v1\0", "sb/grant-v1\0" and "sb/rotwrap-v1\0". */
  const DOMAIN_LOG: Bytes := [115, 98, 47, 108, 111, 103, 47, 118, 49, 0]
  const DOMAIN_GRANT: Bytes := [115, 98, 47, 103, 114, 97, 110, 116, 45, 118, 49, 0]
  const DOMAIN_ROTWRAP: Bytes := [115, 98, 47, 114, 111, 116, 119, 114, 97, 112, 45, 118, 49, 0]

  const DAY_MS: nat := 24 * 3600 * 1000

  predicate VerifyWithSpki(p: Primitives, spki: Bytes, domain: Bytes, msg: Bytes, sig: Bytes) {
    p.verify(spki, domain + msg, sig)
  }

  /** The bytes an entry is signed over: its encoding with the signature field empty. */
  function EntrySignView(p: Primitives, e: LogEntry): Bytes {
    p.encodeEntry(e.(sig := []))
  }

  function GrantSignView(p: Primitives, gc: GrantCert): Bytes {
    p.encodeGrant(gc.(sig := []))
  }
}
