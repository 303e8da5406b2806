# Shareboard, verified

Shareboard synchronises clipboards between the devices of one workspace. A blind relay keeps a signed
membership log and passes sealed messages on; the devices hold the keys. This project models the parts of
Shareboard that decide something, and proves what they promise.

| module | what it models |
|---|---|
| `MemberSet` | the roster digest that key rotations are bound to |
| `WsLog`, `LogHistory`, `LogRules` | the verifier of the workspace log, what an accepted log says about its whole history, and its rules and those of key wraps in terms of the primitives alone |
| `Revocation`, `RevocationDelivery` | log builders, signed key rotations, the command that removes a member, and the same removal carried through the relay to every other device |
| `Relay`, `RelayRuns`, `RelayReplies` | the relay server as a state machine, its invariants over every run, and who is sent what for each message |
| `Lww`, `Suppress`, `History`, `SendCache`, `Engine`, `EngineRules`, `EngineRuns`, `Convergence` | the sync engine, its stores, exactly when it sends, applies, fetches or ignores a clip, its run invariant, and the agreement of any number of engines |
| `ContentFetch`, `BodyCache` | the transfer of large bodies in pieces, and the bounded cache of bodies |
| `UriList`, `FileName` | file lists as clipboard text, and the sanitiser of received file names |
| `LogEntries`, `Wire`, `ByteStrings`, `Text`, `Sequences`, `Wrappers` | log entries, messages, bytes and their order, UTF-8, sequence facts, options and results |

## How it is modelled

Where the source changes state in place, the model has a class with the same fields, or a method with the
same loop, proved equal to a function of the old state; the theorems are about that function, one step or a
whole run of them. Clocks, randomness and nonces are parameters of the step that draws them.

BLAKE3, SHA-256, ECDSA, X25519 sealing, XChaCha20-Poly1305, CBOR, zstd and NFC are uninterpreted. They are
fields of the records `Primitives`, `Tools` and `TextTools` (or a function parameter) that every definition
takes, so a theorem holds for all of them that meet the laws it names in its `requires`: a signature made
with a key verifies under that key (`KeyPair`), opening undoes sealing (`KemPair`, `ToolLaws`), decoding
undoes encoding (`EntryCodecLaw`, `BlobCodecLaw`), well-formed UTF-8 decodes to the text it encodes
(`LossyLaw`). No law says that a hash has no collisions: where that matters the conclusion is "or these two
byte strings collide".

Sequence numbers, epochs, Lamport times and sizes are unbounded; `u64` is kept where the source saturates
(grant expiry, the byte cap). The relay records every message it hands to a device, so a property of what is
sent is a property of that record.

## What was found

These are facts of the code that its comments or its users would not lead one to expect. Each is proved.

- `revoke_member` checks neither that the local log is accepted to its end nor that the revoker is still in
  the roster, and reports success either way. Over the revoker's own log both entries count exactly when both
  hold (`Revocation.RevocationTakesEffectWhen`). At a server that holds the accepted part of that log there are
  three outcomes: everything, when both hold; nothing, when the revoker is not a member; and, when the revoker
  is a member whose log goes on after what is accepted, the Remove without the Epoch
  (`RevocationDelivery.AttemptAtServer`). One entry that does not decode at the end of the local log is enough
  (`RevocationDelivery.UnreadTailSplitsRevocation`); the application appends whatever entry the server
  announces, unverified (`src-tauri/src/worker.rs:778-780`).
- The new key reaches the removed device exactly when the two entries do not count over the revoker's own log
  and the server still has the revoker in its roster, whatever the server's log is and whether or not either
  entry lands there (`RevocationDelivery.RemovedDeviceIsHandedTheKey`).
- The keys of a revocation are served whether or not its entries are taken, as long as the revoker is in the
  server's roster, and each takes the place of a wrap that was waiting; from a revoker outside it nobody hears
  anything (`RevocationDelivery.RevocationNeedsSameLog`, `RevocationDelivery.OutsiderReachesNobody`).
- The comment at `src-tauri/src/commands.rs:865` says the key is bound to the Epoch entry to be adopted. That
  entry's hash is signed and never compared: a wrap is taken over exactly the logs of the next epoch with the old
  roster less the target, whatever their entries are (`RevocationDelivery.WrapTakenIff`). So, when two members
  remove the same device at once, the key of the one whose rotation was refused is taken over the log of the
  other (`RevocationDelivery.RivalKeyIsTaken`).
- The comment at `src-tauri/src/commands.rs:911-913` says the local takeover happens only when the log has
  not changed; the code compares lengths. A log of equal length whose last entry is another is adopted, and
  then neither entry counts over it (`Revocation.LengthIsNotContent`); a log over which they do count is the
  snapshot, or two log entries collide (`Revocation.AdoptedLogIsTheSnapshot`). The comment also says that when
  the log did grow, the server must have refused the entries. It may have taken them, and after them the entry
  that made the log grow. The revoker then skips the takeover and is left with a log that is never again
  accepted to its end (`RevocationDelivery.LogGrewMeanwhile`), so the next device it removes is handed the
  key that should shut it out (`RevocationDelivery.NextRemovalGoesAstray`).
- The greeting handler at `src-tauri/src/worker.rs:554-566` says it brings the log up to date before it
  opens the waiting wrap. It puts the tail in the place of the log, so a device that missed entries is left
  with a log that does not verify and does not take the new key, although the server sent all it needed
  (`RevocationDelivery.WelcomeCatchesUpIff`, `RevocationDelivery.ReturningMember`). The example program
  `crates/sb-server/examples/three_client_revoke.rs:430-432` appends instead, and that works.
- A newcomer is handed whatever key a member has. It takes it only if that is the key of the epoch of the
  log that admitted it (`RevocationDelivery.JoinerAdoptsIff`).
- A server started on a file whose log it cannot fully verify can never extend it
  (`RelayRuns.UnverifiableFileIsFrozen`), and a workspace whose last member removes itself is closed for good
  (`LogHistory.EmptyRosterIsFinal`).
- The roster digest is injective only for keys shorter than 2^32 bytes: the length is cut to 32 bits
  (`MemberSet.TruncatedLengthCollides`).
- An empty sealed body would be announced but never complete (`ContentFetch.EmptyBodyNeverCompletes`).
- The comment at `src-tauri/src/core.rs:100` says that a body larger than the byte cap stays because nothing
  else is left to drop; the loop has dropped it already (`BodyCache.OversizedBodyEmptiesCache`).
- The sanitiser's comment (`crates/sb-proto/src/files.rs:66-67,98`) promises that device names are escaped
  with or without an extension and that no name ends in a dot or a space. `CON.txt` becomes `CON.txt_`, whose
  stem is still a device's, and a long name can be cut right after a dot. Both are characterised exactly
  (`FileName.ReservedNameSurvivesIff`, `FileName.BadEndingIff`).
- A clip copied again keeps its old place in the send cache. The oldest of five, copied again, is gone with the
  very next new clip (`SendCache.RecopiedClipLeavesEarly`); when exactly a body is still served is
  `SendCache.ServedIff`.
- A clip added to a history full of pinned ones is dropped at once (`History.AddedItemStaysIff`), and relative
  paths never survive a round trip (`UriList.RoundTripIffAbsolute`).

## Model

| member | source | states |
|---|---|---|
| `ByteStrings.LexTrichotomy` | crates/sb-proto/src/ids.rs:40-45 | any two byte strings are equal or ordered, one way only |
| `ByteStrings.LexTransitive` | crates/sb-proto/src/ids.rs:40-45 | the byte order is transitive |
| `ByteStrings.AscendingSorted` | crates/sb-crypto/src/wslog.rs:66-69 | the order in which a roster is traversed is strictly ascending, whatever the set of ids |
| `ByteStrings.LexLessIff` | crates/sb-proto/src/ids.rs:40-45 | one byte string comes before another exactly when it is a proper prefix of it or has the smaller byte where the two first differ |
| `ByteStrings.AscendingIs` | crates/sb-crypto/src/wslog.rs:66-69 | a list in ascending order is the traversal of its elements |
| `MemberSet.ComputeMemberSetHash` | crates/sb-crypto/src/wslog.rs:67-76 | the traversal loop hashes the records of all members in ascending order of device id |
| `MemberSet.PreimageIsListing` | crates/sb-crypto/src/wslog.rs:66-75 | the hashed bytes are the records of any list of the members in which each id is smaller than the next at the first byte in which they differ |
| `MemberSet.RecordLayout` | crates/sb-crypto/src/wslog.rs:70-73 | a record byte by byte: id, length of the signing key in four bytes with the least significant first, that key, sealing key |
| `MemberSet.RecordReadBack` | crates/sb-crypto/src/wslog.rs:70-73 | a record says where it ends: two byte strings that start with a record and are equal have equal records and equal rests |
| `MemberSet.PreimageInjective` | crates/sb-crypto/src/wslog.rs:65-74 | the hashed bytes determine the roster, for keys under 2^32 bytes |
| `MemberSet.RosterCommitment` | crates/sb-crypto/src/wslog.rs:65-76 | two rosters with one digest are equal or their pre-images collide |
| `MemberSet.TruncatedLengthCollides` | crates/sb-crypto/src/wslog.rs:71 | without the length bound two different rosters have the same pre-image |
| `WsLog.OpenLog` | crates/sb-crypto/src/wslog.rs:241-277 | the first entry founds the log, or which of the three bad beginnings it is |
| `WsLog.TakeEntry` | crates/sb-crypto/src/wslog.rs:279-394 | one pass of the loop's body: it stops for exactly the reasons the rules give, and otherwise has exactly their effect |
| `WsLog.RunVerifyChain` | crates/sb-crypto/src/wslog.rs:240-406 | the verifier's loop, with every reason to stop, returns the result the specification names: an error for the four bad beginnings, else the state it stopped in |
| `WsLog.LongestValidPrefix` | crates/sb-crypto/src/wslog.rs:236-240 | the result is the state of the longest prefix all of whose entries are accepted; an error exactly when no prefix is |
| `WsLog.FullyAcceptedIsChain` | crates/sb-crypto/src/wslog.rs:279-394 | a log is accepted to its end exactly when each entry is accepted in the state its predecessors leave, and then the result is that state |
| `WsLog.PrefixOfLog` | crates/sb-crypto/src/wslog.rs:279-394 | verifying the first k entries accepts the smaller of k and what the whole log accepts, with the state the loop has at that point |
| `WsLog.RejectedTailIgnored` | crates/sb-crypto/src/wslog.rs:239-283 | nothing appended after a rejected entry changes the result |
| `WsLog.AppendIsOneStep` | crates/sb-crypto/src/wslog.rs:279-394 | appending to an accepted log is one more step, or changes nothing |
| `WsLog.AppendAuthorised` | crates/sb-crypto/src/wslog.rs:284-393 | an entry that links to the head and meets its rule extends an accepted log with the stated effect |
| `LogHistory.AcceptedPrefixInvariant` | crates/sb-crypto/src/wslog.rs:273-394 | of the accepted prefix of any entry list: numbers and hash links have no gap, the epoch counts the rotations, no grant is spent twice, every member is filed under the hash of its key |
| `LogHistory.ChainLinks` | crates/sb-crypto/src/wslog.rs:284-291 | entry i of an accepted log carries number i and links to entry i-1; head and workspace id are the hashes of last and first |
| `LogHistory.ChainEpochs` | crates/sb-crypto/src/wslog.rs:364-370 | the epoch is the number of accepted rotations |
| `LogHistory.ChainGrants` | crates/sb-crypto/src/wslog.rs:326-329 | the grants remembered as spent are exactly those of the accepted Adds, all different |
| `LogHistory.ChainRoster` | crates/sb-crypto/src/wslog.rs:258-267 | every roster key is the SHA-256 of the member's public key |
| `LogHistory.HeadHashCommitsToLog` | crates/sb-crypto/src/wslog.rs:284-292 | two accepted logs with one head hash are equal entry for entry, or an entry of one collides with an entry of the other |
| `LogHistory.AdmittedBetween` | crates/sb-crypto/src/wslog.rs:296-349 | a device in the roster at one point and not at an earlier one was admitted by an Add between them |
| `LogHistory.AuthorityEndsAtRemoval` | crates/sb-crypto/src/wslog.rs:303-384 | after an accepted removal no accepted entry rests on the removed device as sponsor, remover, rotator or subject, unless an Add admitted a key hashing to it in between |
| `LogHistory.EmptyRosterIsFinal` | crates/sb-crypto/src/wslog.rs:303-384 | once the roster is empty no continuation is ever accepted |
| `LogHistory.ClockOnlyLapses` | crates/sb-crypto/src/wslog.rs:318-321 | a log is accepted at a time exactly when it is accepted without a clock and no grant in it has lapsed; the state is the same |
| `LogHistory.ExpiryAntiMonotone` | crates/sb-crypto/src/wslog.rs:238-240 | a later clock accepts no longer a prefix, and its result is what the earlier clock says of that prefix; no clock comes before every clock |
| `LogRules.GenesisRuleIff` | crates/sb-crypto/src/wslog.rs:241-277 | a single entry is a log exactly when it decodes to a Genesis whose signature verifies, over the log domain and the entry without its signature, under the key it names; the whole state it founds |
| `LogRules.RefusedLogIff` | crates/sb-crypto/src/wslog.rs:241-257 | each of the four errors, exactly when the first entry gives cause for it |
| `LogRules.EntryRuleIff` | crates/sb-crypto/src/wslog.rs:279-394 | an entry extends an accepted log exactly when it links to it and meets the rule of its kind, with every signature, the bytes it covers and the key it verifies under written out; the whole state after it; any other entry changes nothing |
| `LogRules.EveryEntryMeetsItsRule` | crates/sb-crypto/src/wslog.rs:296-394 | entry i of any accepted log met that rule over the roster, the epoch and the entries before it: signed, with the key the roster held at that point, by the member it rests on, an Add also by a valid grant of that member |
| `LogRules.FirstEntryMeetsItsRule` | crates/sb-crypto/src/wslog.rs:246-257 | and entry 0 is signed by the founder |
| `LogRules.BuilderContents` | crates/sb-crypto/src/wslog.rs:104-232 | what the builders of Genesis, grant, Add and RotateKem sign, field by field, and with which key |
| `LogRules.DomainsSeparate` | crates/sb-crypto/src/identity.rs:18-31 | the three signing domains, and that nothing signed for one is signed for another |
| `Revocation.GenesisOpensLog` | crates/sb-crypto/src/wslog.rs:104-119 | a built Genesis is an accepted log of epoch 0 whose only member is its builder |
| `Revocation.JoinAccepted` | crates/sb-crypto/src/wslog.rs:122-162 | a member's unexpired, unused grant and the Add signed with it are accepted and admit exactly the joiner |
| `Revocation.RemoveAccepted` | crates/sb-crypto/src/wslog.rs:165-179 | a built Remove is accepted exactly when the log is accepted to its end and its builder is a member; it removes the target only, and otherwise nothing changes |
| `Revocation.EpochAccepted` | crates/sb-crypto/src/wslog.rs:183-209 | a member's built Epoch over the present roster is accepted and raises only the epoch |
| `Revocation.RotateKemAccepted` | crates/sb-crypto/src/wslog.rs:212-232 | a member's built RotateKem is accepted and changes only its own sealing key |
| `Revocation.RunVerifyRotation` | crates/sb-crypto/src/wrap.rs:138-157 | the check passes exactly for a roster member's valid signature over the present epoch and roster digest |
| `LogRules.KeyTakenIff` | src-tauri/src/worker.rs:843-862 | whatever bytes arrive, a device takes a key from them exactly when they open, with its own secret and bound to the workspace and itself, to a blob that a member of its verified roster signed, of its epoch and over the digest of that roster; and the key is the one in the blob |
| `Revocation.RotationNamesOneEpoch` | crates/sb-crypto/src/wrap.rs:134-157 | a blob that passes under two logs names one epoch and one roster, or two roster pre-images collide |
| `Revocation.SealForRoster` | src-tauri/src/commands.rs:875-888 | the sealing loop makes one update for each roster member but the revoker, in order, and fails when one seal fails |
| `Revocation.SealAllCovers` | src-tauri/src/commands.rs:875-888 | the updates go to exactly the roster without the revoker, once each, each sealed to that member's key |
| `Revocation.RunPlanRotation` | src-tauri/src/commands.rs:841-888 | the Epoch entry, the signed blob and the updates are those of the roster after the removal |
| `LogRules.PlanRefusedIff` | src-tauri/src/commands.rs:829-844 | a revocation is refused before sealing exactly for a log that does not verify and for a target outside its roster |
| `LogRules.PlanContents` | src-tauri/src/commands.rs:837-888 | Remove, Epoch, blob and wraps field by field: what each is signed over, and what is sealed to whom |
| `Revocation.AppCore.SendRevocation` | src-tauri/src/commands.rs:809-909 | each refused request and why; otherwise the plan is made from the snapshot and its messages are sent, and nothing else changes |
| `Revocation.AppCore.Send` | src-tauri/src/commands.rs:890-909 | Remove, then Epoch, then the keys if there are any |
| `Revocation.AppCore.AdoptRevocation` | src-tauri/src/commands.rs:911-925 | takes over both entries, the key and the shorter member list together, or nothing, by the length of the log |
| `Revocation.AppCore.TrySetGkFromWrap` | src-tauri/src/worker.rs:843-862 | the engine's and the core's key change together, and only to a key that opens and passes the check against the log |
| `Revocation.AppCore.OnLogAppended` | src-tauri/src/worker.rs:778-840 | the log grows by the entry, the member list follows the accepted roster, and a newcomer is sent the group key |
| `LogRules.JoinReplyIff` | src-tauri/src/worker.rs:804-838 | a newcomer is sent a key exactly when the log verifies, key and workspace are known, the entry is an Add of another device, and sealing succeeds; and what is sealed |
| `Revocation.AppCore.OnWelcome` | src-tauri/src/worker.rs:554-577 | the tail replaces the log, then the waiting wrap is judged against it, then the member list follows |
| `Revocation.RosterIds` | src-tauri/src/worker.rs:1004-1022 | the member list is the roster in ascending order |
| `Revocation.GuestCanBeRevoked` | crates/sb-crypto/src/wslog.rs:103-179 | whoever joined by a founder's grant can be removed by the founder again, so the premises of what follows are met by every log so built |
| `Revocation.RevocationFailsIff` | src-tauri/src/commands.rs:829-888 | a removal that the log allows fails for one reason only, and exactly when it holds: the key could not be sealed to some remaining member |
| `Revocation.RevocationLog` | src-tauri/src/commands.rs:829-888 | both entries are accepted, the epoch rises by one, exactly the target leaves, the updates go to exactly the others but the revoker, and the blob names the Epoch entry |
| `Revocation.RevocationBlob` | src-tauri/src/commands.rs:865-873 | the blob passes under the new log and fails under the old one, with or without the Remove |
| `Revocation.RemainingMemberAdopts` | src-tauri/src/worker.rs:843-862 | a remaining member takes exactly the new key from its wrap once it has both entries, and nothing before |
| `Revocation.RevocationTakesEffectWhen` | src-tauri/src/commands.rs:829-848 | over the revoker's own log both entries count exactly when that log was accepted to its end and the revoker is in its roster; otherwise neither does |
| `Revocation.PlanAddressees` | src-tauri/src/commands.rs:875-888 | whatever the local log: the new key is sealed to all of its roster but the revoker, and the target is among them exactly when the entries do not count |
| `Revocation.AdoptedLogIsTheSnapshot` | src-tauri/src/commands.rs:911-917 | a log that accepts the plan's Remove is the snapshot, or an entry of one collides with an entry of the other |
| `Revocation.LengthIsNotContent` | src-tauri/src/commands.rs:911-917 | another log of the same length, over which neither entry counts |
| `RevocationDelivery.EntryIsTold` | crates/sb-server/src/lib.rs:406-436 | a member's acceptable entry extends log and epoch and is told once to every other device of the new roster that has a session |
| `RevocationDelivery.EntryIsRefused` | crates/sb-server/src/lib.rs:411-445 | an entry that is not accepted at the end of the log costs its sender one refusal and changes nothing else |
| `RevocationDelivery.WrapIsDelivered` | crates/sb-server/src/lib.rs:460-468 | of a batch of wraps each addressee gets its own, pushed or kept for its next hello, and nobody else notices |
| `RevocationDelivery.RevocationAtServer` | src-tauri/src/commands.rs:795-909 | at a server with the revoker's log: log, epoch and roster are the new ones, cached signals are gone, every remaining member gets both entries and then its wrap or finds the wrap waiting, and the removed device is told nothing |
| `RevocationDelivery.AttemptAtServer` | src-tauri/src/commands.rs:829-909 | whatever the local log, at a server that holds its accepted part: log, roster and epoch afterwards, with both entries, the Remove alone, or neither |
| `RevocationDelivery.RemovedDeviceIsHandedTheKey` | crates/sb-server/src/lib.rs:460-468 | for every plan and every server: the removed device is handed a wrap, which it can open, exactly when the entries do not count over the revoker's log and the revoker is in the server's roster; otherwise the keys make no difference to it |
| `RevocationDelivery.WrapGoesOutIff` | crates/sb-server/src/lib.rs:460-468 | a device is handed a wrap of a plan exactly when there is one for it and the sender is a member after the entries |
| `RevocationDelivery.OutsiderReachesNobody` | crates/sb-server/src/lib.rs:204-214 | entries and keys of a device outside the server's roster leave the log and every other device untouched |
| `RevocationDelivery.UnreadTailSplitsRevocation` | src-tauri/src/commands.rs:829-888 | such an input: one entry that does not decode at the end of the revoker's log |
| `RevocationDelivery.RevocationNeedsSameLog` | src-tauri/src/commands.rs:911-913 | at a server with any log: the rotation lands exactly when that log is the revoker's, or that with the Remove in it, and otherwise the log stays, or two entries collide; all wraps are handed out when the revoker is in the server's roster, and nobody hears anything when it is not |
| `RevocationDelivery.WrapTakenIff` | crates/sb-crypto/src/wrap.rs:134-157 | a wrap of a rotation is taken over exactly the logs of the next epoch whose roster is the old one without the target, whatever their entries are, or two roster pre-images collide |
| `RevocationDelivery.RivalKeyIsTaken` | crates/sb-crypto/src/wrap.rs:134-157 | of two rotations that remove the same device, the wraps of either are taken over the log of the other, though the Epoch entry they name is not in it |
| `RevocationDelivery.LogGrewMeanwhile` | src-tauri/src/commands.rs:911-925 | an entry appended behind the two at the server and heard of before the takeover: the takeover is skipped, and the local log is never again accepted to its end, whatever is appended |
| `RevocationDelivery.NextRemovalGoesAstray` | src-tauri/src/commands.rs:829-909 | the next device such a revoker removes is handed the new key |
| `RevocationDelivery.OnlineMemberFollows` | src-tauri/src/commands.rs:890-891 | what the server sends a connected member leaves it with the new log and key; in the other order the key would be lost |
| `RevocationDelivery.WelcomeCatchesUpIff` | src-tauri/src/worker.rs:554-566 | the log a device keeps after the greeting verifies exactly when it had none, missed nothing, or its head was taken for nothing; with the tail appended it would always be whole |
| `RevocationDelivery.HelloIsAnswered` | crates/sb-server/src/lib.rs:217-278 | a member's hello is answered once, with the log it misses, the wrap waiting for it, presence and cached signals; the wrap is kept no longer and nothing else changes |
| `RevocationDelivery.AbsentMemberIsGreeted` | crates/sb-server/src/lib.rs:151-278 | a remaining member without a session during the removal that connects and says hello is sent exactly one message: the greeting of the new epoch with the missed entries, its wrap and no old signal |
| `RevocationDelivery.ReturningMember` | src-tauri/src/worker.rs:556-570 | a member that missed the revocation gets a tail and a wrap that yield the new key over its log with the tail added, and no key over the log the application keeps |
| `RevocationDelivery.JoinerAdoptsIff` | src-tauri/src/worker.rs:804-838 | the key handed to a newcomer is taken exactly when it is the key of the epoch of the log that admitted it |
| `Relay.FanOut` | crates/sb-server/src/lib.rs:102-108 | the loop over the sessions adds the message once for each session of a roster member but one, and nothing else |
| `Relay.Server.constructor` | crates/sb-server/src/lib.rs:60-149 | a server starts with the saved log, claimed if that is not empty, at the epoch it verifies to, and with nothing else |
| `Relay.Server.Roster` | crates/sb-server/src/lib.rs:84-92 | the roster is the members of the accepted prefix, empty for an empty or invalid log |
| `Relay.Server.Connected` | crates/sb-server/src/lib.rs:151-170 | session and address are recorded; the others hear of it if the device is a member |
| `Relay.Server.Disconnected` | crates/sb-server/src/lib.rs:172-188 | session and address are dropped by device and the others hear of it |
| `Relay.Server.Presences` | crates/sb-server/src/lib.rs:235-243 | one entry per roster member in ascending order |
| `Relay.Server.HandleHello` | crates/sb-server/src/lib.rs:229-278 | the greeting carries the missing log, the waiting wrap once, presence and cached signals |
| `Relay.Server.HandleClipSignal` | crates/sb-server/src/lib.rs:280-295 | the cache keeps the last four and the signal goes to the other members |
| `Relay.Server.HandleContentRequest` | crates/sb-server/src/lib.rs:297-311 | a cached signal routes the answer and pulls from its origin, else the request is rejected |
| `Relay.Server.HandleTransfer` | crates/sb-server/src/lib.rs:312-345 | pieces go to the routed requester unchanged; a reject or abort also ends the route |
| `Relay.Server.HandleClaim` | crates/sb-server/src/lib.rs:347-399 | the three refusals, or the workspace is founded and saved |
| `Relay.Server.HandleAppend` | crates/sb-server/src/lib.rs:406-447 | the two refusals, or the entry is appended, saved, acknowledged and told to the new roster, an Epoch clearing the cache |
| `Relay.Server.HandleKeyUpdates` | crates/sb-server/src/lib.rs:460-468 | each wrap is pushed or kept, in order |
| `Relay.Server.HandleMessage` | crates/sb-server/src/lib.rs:191-492 | the whole dispatch, the guest rule first, and whether the connection stays open |
| `RelayRuns.MessageAndLog` | crates/sb-server/src/lib.rs:347-447 | log, claim, epoch and file change by a first claim or an accepted append only, and exactly so; the cache by those and by signals only |
| `RelayRuns.RunSafe` | crates/sb-server/src/lib.rs:110-492 | over any run from a start without a file, or on one whose log is accepted to its end: claimed exactly when the log is not empty, a log that is not empty is accepted to its end, the cached epoch is its epoch, the file is current |
| `RelayRuns.StepSafe` | crates/sb-server/src/lib.rs:191-492 | every event keeps that invariant |
| `RelayRuns.LogOnlyGrows` | crates/sb-server/src/lib.rs:347-447 | once claimed the log grows at its end only, over any run whose restarts have a file; a log that is not accepted to its end never changes |
| `RelayRuns.UnverifiableFileIsFrozen` | crates/sb-server/src/lib.rs:116-119 | a server started on such a file keeps that log over every run |
| `RelayRuns.RestartRestores` | crates/sb-server/src/lib.rs:60-80 | at any point of any run, whatever the file held at the start, a restart brings back log, claim and epoch |
| `RelayRuns.RunCurrent` | crates/sb-server/src/lib.rs:60-80 | over any run, whatever the server was started on, claim, cached epoch and file agree with the log |
| `RelayRuns.RosterAfterEntry` | crates/sb-crypto/src/wslog.rs:293-389 | an entry accepted at the end of a log changes the roster as its kind says and in no other way |
| `RelayRuns.StepKeepsStanding` | crates/sb-server/src/lib.rs:191-492 | no event but an entry about a device, or a restart, makes it a member or stops it being one |
| `RelayRuns.GuestEffect` | crates/sb-server/src/lib.rs:196-214 | a device outside the roster can only found an unclaimed workspace or append one accepted Add; it touches nothing else |
| `RelayRuns.StepHeadCache` | crates/sb-server/src/lib.rs:280-284 | what each event does to the cached signals |
| `RelayRuns.HeadCacheIsRecentHistory` | crates/sb-server/src/lib.rs:280-430 | over any run the cache is the last four member signals since the last accepted Epoch or restart |
| `Sequences.LastNIs` | crates/sb-server/src/lib.rs:281-285 | which elements the last n are, and in what order |
| `RelayRuns.StepQuiet` | crates/sb-server/src/lib.rs:191-492 | the server sends clip signals, or messages of one transfer, only on a member's message of that kind |
| `RelayRuns.FanoutExactlyOnce` | crates/sb-server/src/lib.rs:102-108 | over any run each device is sent, once each and in order, exactly the signals other members sent while it was a member with a session |
| `RelayRuns.TransferPassesThrough` | crates/sb-server/src/lib.rs:297-345 | over any run, whatever else happens, a requester that stays and whose request is not repeated, rejected or aborted is sent exactly the pieces members sent, once each and in order |
| `RelayReplies.ConnectIsTold` | crates/sb-server/src/lib.rs:151-170 | the state after a connect, and that a member is announced with address and profile to exactly the other members online |
| `RelayReplies.DisconnectIsTold` | crates/sb-server/src/lib.rs:172-188 | the same for a disconnect |
| `RelayReplies.RestartForgets` | crates/sb-server/src/lib.rs:112-148 | a restart keeps the log of the file, its epoch and the token, and nothing else |
| `RelayReplies.GreetingTail` | crates/sb-server/src/lib.rs:229-234 | which entries a greeting brings; a device that names the head of a beginning of the log is brought up to date |
| `RelayReplies.GreetingPresence` | crates/sb-server/src/lib.rs:235-243 | the entry of each member in the greeting |
| `RelayReplies.HelloIsTold` | crates/sb-server/src/lib.rs:263-277 | a member that says hello is announced, with address and profile, to exactly the other members online |
| `RelayReplies.ProfileIsTold` | crates/sb-server/src/lib.rs:470-483 | a profile is kept and told to exactly the other members online |
| `RelayReplies.PingIsAnswered` | crates/sb-server/src/lib.rs:485-487 | a ping is answered with its own nonce |
| `RelayReplies.VersionRefused` | crates/sb-server/src/lib.rs:217-228 | a hello whose versions do not meet 2 to 3 is refused and the connection closed |
| `RelayReplies.PieceIsPassedOn` | crates/sb-server/src/lib.rs:312-345 | a piece goes unaltered, field by field, to exactly whoever asked for its id; rejection and abort end the route; one nobody asked for is dropped |
| `RelayReplies.LogIsServed` | crates/sb-server/src/lib.rs:401-404 | whoever asks is sent the log from the entry named |
| `RelayReplies.ClaimIsAnswered` | crates/sb-server/src/lib.rs:347-399 | the three refusals of a claim in the order of its checks, or the founded workspace; the reply, the whole state and whether the connection stays open |
| `RelayReplies.AppendIsAnswered` | crates/sb-server/src/lib.rs:406-447 | the sender of an entry is told the number and hash of the new head, or why the entry was refused |
| `RelayReplies.OutsiderIsRefused` | crates/sb-server/src/lib.rs:196-214 | of any message but four an outsider is told it is no member, and nothing else happens |
| `RelayReplies.ClosedIff` | crates/sb-server/src/lib.rs:191-492 | exactly which messages close the connection |
| `RelayReplies.InviteStands` | crates/sb-server/src/lib.rs:449-454 | over any run in which it is not replaced, revoked or lost with a restart, an invite stands |
| `RelayReplies.InviteIsServed` | crates/sb-server/src/lib.rs:449-458 | and is handed, as it was left, to anyone who names its locator; a revoked one to nobody |
| `Lww.KeyTrichotomy` | crates/sb-proto/src/ids.rs:36-45 | any two keys are equal or ordered, one way only |
| `Lww.KeyTransitive` | crates/sb-proto/src/ids.rs:36-45 | the key order is transitive |
| `Lww.LwwState.Tick` | crates/sb-core/src/lww.rs:31-34 | the clock advances by one and nothing else changes |
| `Lww.LwwState.MergeLamport` | crates/sb-core/src/lww.rs:37-41 | the clock becomes the larger of the two |
| `Lww.ApplyTracksNewest` | crates/sb-core/src/lww.rs:44-54 | applying when newer keeps the newest of all keys seen, in any order and with repeats |
| `Lww.NewestUnique` | crates/sb-core/src/lww.rs:44-49 | a set of keys has one newest |
| `Suppress.SuppressSet.RegisterId` | crates/sb-core/src/suppress.rs:31-34 | records the end of the window and moves the id to the recent end |
| `Suppress.SuppressSet.TouchRecent` | crates/sb-core/src/suppress.rs:48-56 | cut out, pushed, trimmed to sixteen, each id once |
| `Suppress.SuppressSet.ShouldSuppress` | crates/sb-core/src/suppress.rs:38-41 | cleans up first and then answers by what is left |
| `Suppress.GraceIsLastRegistration` | crates/sb-core/src/suppress.rs:31-61 | over any run with a clock that does not go back, a kept window ends two seconds after the last registration, and a dropped one is over |
| `Suppress.SuppressedIffRecentlyRegistered` | crates/sb-core/src/suppress.rs:36-61 | an id is suppressed exactly when its last registration is under two seconds old, whatever clean-ups ran |
| `Suppress.ByLastRegistrationOrder` | crates/sb-core/src/suppress.rs:48-56 | the reference list holds exactly the registered ids in the order of their last registrations |
| `Suppress.RecentIsLastSixteen` | crates/sb-core/src/suppress.rs:48-56 | over any run the bounded list is the last sixteen of that list |
| `History.HistoryBuffer.Add` | crates/sb-core/src/history.rs:43-49 | the item comes first, its old copy goes, and what is kept is every pinned item and the newest others that fit |
| `History.HistoryBuffer.Evict` | crates/sb-core/src/history.rs:51-60 | the dropping loop reaches that closed form |
| `History.HistoryBuffer.OldestUnpinned` | crates/sb-core/src/history.rs:54 | finds the last unpinned position, if any |
| `History.HistoryBuffer.SetPinned` | crates/sb-core/src/history.rs:78-85 | changes the pin of that id only, and says whether it was there |
| `History.SetPinAt` | crates/sb-core/src/history.rs:78-85 | the first item with the id gets the pin asked for, and nothing else changes |
| `History.HistoryBuffer.Delete` | crates/sb-core/src/history.rs:87-94 | removes that id only, and says whether it was there |
| `History.KeepNewestKeeps` | crates/sb-core/src/history.rs:51-60 | all pinned items stay, and of the others exactly the newest up to the quota, in order |
| `History.DropOldest` | crates/sb-core/src/history.rs:52-56 | dropping the oldest unpinned item while over quota does not change the outcome |
| `History.RunKeepsIdsUnique` | crates/sb-core/src/history.rs:43-98 | over any run every id is listed once |
| `History.AddRespectsCapacity` | crates/sb-core/src/history.rs:51-60 | after an add the buffer is within capacity or holds pinned items only |
| `History.AddedItemStaysIff` | crates/sb-core/src/history.rs:43-60 | the added item stays exactly when it is pinned or the pinned ones leave room |
| `SendCache.SendCacheState.Store` | crates/sb-core/src/engine.rs:95-108 | stores the body, a new id last, and drops the oldest beyond five; map and order stay in agreement |
| `SendCache.SendCacheState.Fetch` | crates/sb-core/src/engine.rs:109-114 | serves a body whose time is not over |
| `SendCache.PutKeepsAgreement` | crates/sb-core/src/engine.rs:95-108 | the order lists the stored ids once each, at most five |
| `SendCache.KeptIff` | crates/sb-core/src/engine.rs:95-108 | a cached body stays, unchanged, exactly while the ids new to the cache stored since leave it one of five places; it moves back by one for each, and by none for an id stored again |
| `SendCache.ServedIff` | crates/sb-core/src/engine.rs:95-114 | a body is served exactly until five minutes are over and while it has a place, counted from the first for a new id and from its old one for an id stored again |
| `SendCache.RecopiedClipLeavesEarly` | crates/sb-core/src/engine.rs:95-108 | the oldest of five bodies, stored again, is served at once and gone after the next new id |
| `Engine.SyncEngine.OnLocalClipboard` | crates/sb-core/src/engine.rs:207-266 | each outcome of a local copy and the whole state it leaves |
| `Engine.SyncEngine.OnRemoteSignal` | crates/sb-core/src/engine.rs:269-338 | each decision on a signal and the whole state it leaves |
| `Engine.SyncEngine.OnContentFetched` | crates/sb-core/src/engine.rs:341-359 | each outcome of a fetched body and the whole state it leaves |
| `Engine.SyncEngine.ApplyContent` | crates/sb-core/src/engine.rs:361-376 | echo suppression is armed, a newer key is applied, the history is extended |
| `Engine.SyncEngine.ServeContent` | crates/sb-core/src/engine.rs:181-183 | answers from the send cache and changes nothing |
| `Engine.SyncEngine.SetEnabled` | crates/sb-core/src/engine.rs:176-178 | switches that setting only |
| `Engine.SyncEngine.SetGroupKey` | crates/sb-core/src/engine.rs:171-174 | the key changes and pending fetches are dropped |
| `EngineRuns.EmitRaises` | crates/sb-core/src/engine.rs:238-263 | a copy that is sent outranks what was applied, though it is applied without asking; nothing else changes what is applied |
| `EngineRuns.StepCoherent` | crates/sb-core/src/engine.rs:171-376 | every event keeps the clock at or past every key held and pending fetches in the present epoch, and never replaces what is applied by something older |
| `EngineRuns.RunCoherent` | crates/sb-core/src/engine.rs:171-376 | that holds over any run from a fresh engine |
| `EngineRuns.CurrentNeverGoesBack` | crates/sb-core/src/lww.rs:31-54 | over any run what is applied and the clock never go back |
| `EngineRuns.EchoIff` | crates/sb-core/src/engine.rs:213-218 | over any run of an engine with a clock that does not go back, a local copy is taken for an echo exactly when the clip with its id was applied from a peer under two seconds ago |
| `EngineRuns.SuppressRefinesLog` | crates/sb-core/src/engine.rs:361-376 | over any run the suppression set is that of the log of applied clips and copies |
| `EngineRuns.CacheIsPuts` | crates/sb-core/src/engine.rs:262-263 | over any run the send cache is the one before it with the emitted bodies stored, in order |
| `EngineRuns.FetchStands` | crates/sb-core/src/engine.rs:171-174 | over any run without a key change and without another signal or body for that id, a pending fetch stands |
| `EngineRuns.CompressRoundTrip` | crates/sb-core/src/compress.rs:9-27 | decompressing undoes compressing, whether or not it paid |
| `EngineRuns.EmittedOpens` | crates/sb-core/src/engine.rs:238-302 | an emitted signal opens at any engine with the key and epoch to the body that was sealed |
| `EngineRuns.FetchDeliversClip` | crates/sb-core/src/engine.rs:320-359 | whatever the sender has done since, it serves the body exactly while it is recent and has a place; whatever the receiver has done since, as long as that left the fetch alone, the body yields the clip |
| `EngineRules.CopyOutcome` | crates/sb-core/src/engine.rs:207-237 | which of its outcomes a local copy has, exactly, from the settings, the suppression window and the size |
| `EngineRules.SentOnlyIfAllowed` | crates/sb-core/src/engine.rs:223-235 | a copy is sent only with sync on, the setting of its own kind on, and within the size limit |
| `EngineRules.UnsentCopy` | crates/sb-core/src/engine.rs:220-237 | a copy lacking one of these leaves clock and send cache alone and, unless it is an echo, still comes first in the uncut history |
| `EngineRules.NothingMovesWhileOff` | crates/sb-core/src/engine.rs:223-279 | over any run of copies and signals with sync off, nothing is sent and nothing applied, and clock, send cache and pending fetches stand still |
| `EngineRules.SentCopy` | crates/sb-core/src/engine.rs:238-265 | what a sent copy consists of: header, sealed clip and sealed body, with every field, the bytes each is bound to, when it is deflated and when carried whole |
| `EngineRules.EpochBytes` | crates/sb-core/src/engine.rs:124-130 | the epoch in associated data is eight bytes, the least significant first |
| `EngineRules.AppliedIff` | crates/sb-core/src/engine.rs:269-338 | a signal is applied, or its body asked for, exactly when sync is on and it opens to a newer body of its own epoch and origin, with the clip its id names, or without any |
| `EngineRules.SignalEffect` | crates/sb-core/src/engine.rs:295-338 | what such a signal leaves in clock, suppression set, history and pending fetches |
| `EngineRules.IgnoredSignal` | crates/sb-core/src/engine.rs:276-304 | why a signal is ignored, and that one that cannot be opened or does not concern the engine changes nothing |
| `EngineRules.FetchedIff` | crates/sb-core/src/engine.rs:341-353 | a fetched body is applied exactly when it was asked for, opens bound to id and epoch, and is the clip the id names |
| `EngineRules.FetchedEffect` | crates/sb-core/src/engine.rs:341-376 | whatever comes of it the fetch is over; an applied clip is taken as noted when its signal came, and its key only if still the newest |
| `Convergence.CopyEmitsCarried` | crates/sb-core/src/engine.rs:238-265 | an emitted inline copy is a well-formed signal that carries its key and its clip |
| `Convergence.ReceiveCarried` | crates/sb-core/src/engine.rs:276-318 | any enabled engine with the key takes such a signal into account: its clock catches up, and exactly a newer one is applied, with the clip that was sealed |
| `Convergence.StepInvariant` | crates/sb-core/src/engine.rs:207-376 | every copy and delivery keeps each engine at the newest key it has emitted or been handed, showing the clip of that signal, and all emitted keys different |
| `Convergence.EnginesConverge` | crates/sb-core/src/engine.rs:238-376 | any number of engines, any interleaving of copies and of deliveries, late, reordered or repeated: once every signal has reached everyone, all hold the newest emitted key, exactly one signal carries it, and every engine shows the clip in it |
| `Convergence.NewestCopyWins` | crates/sb-proto/src/ids.rs:36-45 | which copy that is: every other emitted key has the smaller Lamport time, or at equal ones the earlier wall time, or at equal ones the smaller byte where the origins first differ |
| `ContentFetch.Split` | src-tauri/src/worker.rs:591-600 | the loop cuts the body into consecutive pieces of 64 KiB |
| `ContentFetch.AnswerPull` | src-tauri/src/worker.rs:586-618 | a pull is answered by the announcement and the numbered pieces, or a rejection |
| `ContentFetch.ChunksJoin` | src-tauri/src/worker.rs:591-606 | the pieces join to the body; none is empty or over 64 KiB |
| `ContentFetch.TransferContents` | src-tauri/src/worker.rs:591-608 | the announcement names size and number of pieces, and piece i is bytes 65536 i to 65536 (i + 1) of the body |
| `ContentFetch.FetchTable.OnMessage` | src-tauri/src/worker.rs:619-633 | what each transfer message does to the table of fetches |
| `ContentFetch.ClosedTransferIsDropped` | src-tauri/src/worker.rs:631-633 | a rejection or an abort drops that transfer and what it had brought, and no other; pieces that still come are ignored |
| `ContentFetch.OnlyOwnMessagesCount` | src-tauri/src/worker.rs:619-633 | however transfers are interleaved, each depends on its own messages only |
| `ContentFetch.TransferProgress` | src-tauri/src/worker.rs:619-630 | after the announcement and n pieces, among any other messages and whatever came before, the requester holds exactly those pieces, and completes the body with the last one and not before |
| `ContentFetch.EmptyBodyNeverCompletes` | src-tauri/src/worker.rs:591-627 | an empty body is announced with no piece and stays open |
| `ContentFetch.RelayedTransfer` | crates/sb-server/src/lib.rs:297-345 | the same from holder to requester through the relay, amid any other traffic, log growth and transfers |
| `ContentFetch.RequestRoutes` | crates/sb-server/src/lib.rs:297-300 | a member that asks for an id some cached signal has: the sender of the oldest such signal, and nobody else, is asked for the body once, and the answer is routed to the requester |
| `ContentFetch.RequestRefused` | crates/sb-server/src/lib.rs:301-310 | a member that asks for an id no cached signal has is told once that it is gone, and nothing else happens |
| `ContentFetch.PiecesAreTheHolders` | crates/sb-server/src/lib.rs:312-335 | over any run that does not upset a transfer, what members send about it is what the holder sends, and the holder stays a member |
| `ContentFetch.FetchedClipArrives` | src-tauri/src/worker.rs:586-630 | end to end: a clip too large for its signal is copied, asked for at a server that caches the signal, and answered from the sender's cache; over any server run that does not upset the transfer and any runs of the two engines that leave the fetch alone, one more body is completed and it opens to the clip |
| `BodyCache.BodyStore.CacheBody` | src-tauri/src/core.rs:79-105 | under the caps that the two settings give, the eviction loop leaves the closed form, the books balance, and exactly the evicted thumbnails go |
| `BodyCache.BodyStore.EvictSurplus` | src-tauri/src/core.rs:92-104 | the loop, with both its exits, keeps what fits of the newest |
| `BodyCache.BodyStore.ForgetBody` | src-tauri/src/core.rs:108-116 | body, place, bytes and thumbnail of that id go together |
| `BodyCache.BodyStore.ClearBodies` | src-tauri/src/core.rs:119-125 | bodies, order, total and thumbnails are emptied together |
| `BodyCache.RunBalanced` | src-tauri/src/core.rs:79-125 | over any run, with settings changing, the running total is the size of the cached bodies and the order lists them once each |
| `BodyCache.SurplusIsLeast` | src-tauri/src/core.rs:92-104 | no smaller number of evictions would do |
| `BodyCache.CacheKeepsLongestSuffix` | src-tauri/src/core.rs:79-105 | what remains is the longest suffix of the old order without the id, then the id, that meets both caps |
| `BodyCache.LargestBodiesHeld` | src-tauri/src/core.rs:80-99 | of bodies of the largest size cached one after the other exactly the last four are held, unless u64 cannot count their bytes or twice the history length is less |
| `BodyCache.NewBodyKeptIff` | src-tauri/src/core.rs:82-104 | the body just cached is still there exactly when it is no larger than the byte cap, so always when it is within the size limit |
| `BodyCache.OversizedBodyEmptiesCache` | src-tauri/src/core.rs:92-104 | a body over the byte cap alone empties the cache and is not kept |
| `UriList.WriteUri` | crates/sb-clipboard/src/uri_list.rs:11-22 | the loop writes the percent-encoding of each byte outside the kept set |
| `UriList.WriteUriList` | crates/sb-clipboard/src/uri_list.rs:25-32 | one CRLF-ended line per path |
| `UriList.WriteGnomeCopiedFiles` | crates/sb-clipboard/src/uri_list.rs:35-42 | the header and one line per path, no final newline |
| `UriList.ListFormats` | crates/sb-clipboard/src/uri_list.rs:11-42 | the two formats, line by line: what begins and ends each |
| `UriList.RunDecode` | crates/sb-clipboard/src/uri_list.rs:71-93 | the decoding loop, with its cut, malformed and empty cases |
| `UriList.EncodeRoundTrip` | crates/sb-clipboard/src/uri_list.rs:11-93 | decoding undoes encoding for every byte string |
| `UriList.PathSpelling` | crates/sb-clipboard/src/uri_list.rs:11-22 | a path is spelt byte by byte, in order |
| `UriList.ByteSpelling` | crates/sb-clipboard/src/uri_list.rs:13-20 | which characters are written as themselves, and the two upper-case digits of any other byte |
| `UriList.EscapeReads` | crates/sb-clipboard/src/uri_list.rs:81-82 | both cases of a digit read alike, a plus sign may stand for a leading zero, and nothing else is read |
| `UriList.EscapeAfter` | crates/sb-clipboard/src/uri_list.rs:74-88 | after a well-formed front an escape adds the byte it names; a cut or malformed one spoils the whole |
| `UriList.DecodedIff` | crates/sb-clipboard/src/uri_list.rs:71-93 | a URI stands for the bytes its escapes spell, and for nothing when that is no byte |
| `UriList.LinesBreakAtNewlines` | crates/sb-clipboard/src/uri_list.rs:48 | text breaks into lines at every line feed and carriage return |
| `UriList.OneLine` | crates/sb-clipboard/src/uri_list.rs:48 | and nowhere else |
| `UriList.LineNamesFile` | crates/sb-clipboard/src/uri_list.rs:49-68 | a line, without the white space around it, names a file exactly when it begins with `file:///` or `file://localhost/` and what follows decodes |
| `UriList.UriReadsBack` | crates/sb-clipboard/src/uri_list.rs:46-69 | the line of an absolute path reads back to the path |
| `UriList.ParseYieldsAbsolute` | crates/sb-clipboard/src/uri_list.rs:46-69 | whatever the clipboard holds, every path read from it is absolute |
| `UriList.RoundTripIffAbsolute` | crates/sb-clipboard/src/uri_list.rs:25-53 | a list survives either format exactly when every path in it is absolute |
| `FileName.Sanitise` | crates/sb-proto/src/files.rs:69-109 | the sanitiser with its trimming loop computes the specified name |
| `FileName.TruncateKeepingExtension` | crates/sb-proto/src/files.rs:112-136 | the copying loop keeps the longest prefix that fits, and a short extension |
| `FileName.TakeBytesLongest` | crates/sb-proto/src/files.rs:125-131 | one more character would not fit |
| `FileName.NameFromParts` | crates/sb-proto/src/files.rs:70-92 | of the normalised name exactly the part after the last separator is kept, without leading white space and trailing dots and spaces, and with an underscore for each forbidden character |
| `FileName.NameFromBase` | crates/sb-proto/src/files.rs:94-108 | nothing left becomes "unnamed", a device name is marked, a name of more than 200 bytes is cut |
| `FileName.CutKeepsExtension` | crates/sb-proto/src/files.rs:112-136 | a long name with an extension of 1 to 16 bytes keeps it, after the longest beginning that leaves 200 bytes |
| `FileName.CutWithoutExtension` | crates/sb-proto/src/files.rs:112-136 | any other long name is cut to its longest beginning of 200 bytes |
| `FileName.ReservedIff` | crates/sb-proto/src/files.rs:98-104 | which names are device names, in any case of their letters |
| `Text.Utf8Layout` | crates/sb-proto/src/files.rs:113-129 | the bytes of a character, by which names are measured, are those of RFC 3629, section 3 |
| `Text.WhiteSpace` | crates/sb-clipboard/src/uri_list.rs:49 | which characters are trimmed |
| `FileName.SafeNameShape` | crates/sb-proto/src/files.rs:61-69 | the name written is not empty, at most 200 bytes, free of separators, control and forbidden characters, and not a directory name, whatever a peer sends |
| `FileName.ReservedNameSurvivesIff` | crates/sb-proto/src/files.rs:98-106 | the stem is still a device's exactly when the cleaned name's was and it contains a dot |
| `FileName.ConsoleKeepsItsName` | crates/sb-proto/src/files.rs:98-106 | such a name |
| `FileName.BadEndingIff` | crates/sb-proto/src/files.rs:67-92 | the name ends in a dot or a space exactly when it was too long, had no short extension, and a dot or a space was the last character to fit in 200 bytes |
| `FileName.CutAfterDot` | crates/sb-proto/src/files.rs:112-135 | such names |
| `FileName.UnchangedIff` | crates/sb-proto/src/files.rs:69-109 | a normalised name is left alone exactly when it is tidy, fits, and is no device's or would lose its mark to the cut |

## Left out

- TLS, sockets, framing, tasks, the tray, the web view and all commands but `revoke_member`: input and output without logic of their own.
- Real cryptography, CBOR, zstd, NFC and preview texts: uninterpreted functions with the laws named where they are used; that a hash or signature cannot be forged is never assumed.
- Widths of integers: sequence numbers, epochs, Lamport times, expiry times of the send cache and the suppress window, the byte total of the body cache and the 32-bit piece count and index are unbounded, so wrap-around and overflow panics are not captured. Sequence numbers and epochs are bounded by the length of the log.
- Error texts, and message fields that the receiver does not read: device id, application version and epoch of a hello, the epoch of a content request, server time, invite lifetimes.
- Connections: the relay's session table is a set of devices, so two connections of one device are not told apart and a message counts as sent when it is handed to the device's queue.
- Failing writes: saving the log, the key or an image file succeeds or is not modelled, as the source ignores the result; a send on the application's own queue does not fail.
- Between the messages of a revocation no other message reaches the server in `RevocationDelivery.RevocationAtServer`, `RevocationDelivery.AttemptAtServer` and `RevocationDelivery.RevocationNeedsSameLog`; a single message is treated at any state by `RevocationDelivery.EntryIsTold` and `RevocationDelivery.EntryIsRefused`.
- Member views are reduced to device ids: names, platforms, addresses and the hex form of ids are display only.
- Convergence.EnginesConverge: a copy that is not sent (an echo, too large, or of a kind switched off) changes its own device's clipboard without any engine taking part, so agreement is on what engines sent and applied; and it is on clips that travel inside their signals, and no key change during the run, because a fetched body is keyed by content id and a second signal for the same id replaces the first.
- ContentFetch.FetchedClipArrives: what happens when a fetch is asked for again, rejected or aborted is left to the step theorems; a body that arrives is returned to the caller even if a newer clip has been applied meanwhile.
- Relay.Server.Roster: the server verifies its log anew for each message; the model does the same and says nothing about cost.
- The image files, thumbnails' contents and disk history beside the body cache; Windows paths; lossy decoding of bytes that are not UTF-8.
- What invites and profiles contain and how long an invite is good for, onboarding, settings merging, the LAN allow-list and constants that nothing enforces: single-branch claims.
