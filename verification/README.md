# ZiaCrypte protocol model

A Dafny model of the stateful core of ZiaCrypte, an end-to-end encrypted messenger: the native
crypto engine's protocols and file formats, and two pieces of its server. Every operation that
updates state in place is a method of a class, proved equal to a function of the old state; the
theorems are about those functions, over all inputs, all runs and all interleavings.

| module | source | subject |
|---|---|---|
| `Symbolic` | `crypto-engine/src/primitives/` | the primitives as a free term algebra with a commutative Diffie-Hellman |
| `Ratchet` | `crypto-engine/src/ratchet.cpp` | the Double Ratchet session object |
| `RatchetOutcome`, `RatchetSafety`, `RatchetSecrecy`, `RatchetCache`, `RatchetOrder` | same | one session under arbitrary traffic |
| `TwoParty` | same | two sessions and a network |
| `Handshake`, `HandshakeOutcome`, `HandshakeSafety`, `PrekeyFile` | `crypto-engine/src/x3dh.cpp` | X3DH / PQXDH, prekeys in memory and on disk |
| `SenderKeys`, `GroupOutcome`, `GroupBroadcast`, `GroupSafety` | `crypto-engine/src/sender_keys.cpp` | group sender keys, one sender and many members |
| `Bytes`, `SessionCodec`, `IdentityCodec`, `FileLayout`, `Backup` | `session.cpp`, `identity_store.cpp`, `backup.cpp` | binary formats |
| `Presence`, `PresenceSafety`, `PresenceReference` | `server/src/ws/gateway.ts` | the presence index and the clients' views |
| `Base32` | `server/src/lib/totp.ts` | base32 with an accumulator that wraps |

Conventions. Random draws, database answers and the success of a save are arguments, so every
statement holds for all of them. 32-bit counters are `u32` and wrap where the code lets them
wrap. A message, header or file that the code's own length and null tests refuse is a value of
its own (`Malformed`, `Garbled`, `Unreadable`) or a byte string on which the reader answers
`None`.

The code is modelled as it is, which makes some of its limits visible:

- A failed decryption is not undone: skipped keys stay set aside, a DH step stays taken and a
  cached key that did not open the message is gone. The accept-once and nonce theorems hold in
  spite of that, but order independence does not hold everywhere. When a remote DH key comes
  back with a new chain while keys of its first chain are still cached, those leftovers shadow
  the new ones. `RatchetOrder.LeftoverReachable` is an input, and
  `RatchetOrder.OrderIndependentExactly` the exact condition; `TwoParty.CachesBehind` shows
  that it is met between honest parties.
- `zia_session_decrypt` derives a key from the receive chain without testing that there is one.
  `Ratchet.ChainExists` states when there is, and `Ratchet.ChainMayBeMissing` is an input where
  there is none; between honest parties there always is, which is part of what
  `TwoParty.Agreement` proves.
- Forward secrecy is about what is erased. What a session holds gives nothing towards a used
  message key, but private keys kept elsewhere can: exactly those that give the session key and
  have an end of every DH step up to the message (`RatchetSecrecy.ForwardSecrecy`). The identity
  file keeps such keys. A consumed one-time prekey is marked, not erased, so that the file of an
  engine that accepted a handshake gives every key of the first receive chain
  (`RatchetSecrecy.FirstChainExposed`). From the first DH step whose two keys are gone, taking
  the whole device gives nothing (`RatchetSecrecy.DeviceForwardSecrecy`).
- The result of the save after a handshake is ignored. A one-time prekey is used twice only if
  the engine restarts while the consumption is not on disk, by that save or a later one:
  `HandshakeSafety.ReuseReachable` is an input, `HandshakeSafety.RestartReusesExactly` the exact
  condition.
- An export counts vault entries before it reads them and leaves out those that do not read
  back. Such a backup is refused as a whole on import: `Backup.RoundTrip` says that an import
  succeeds exactly when every listed entry was read, and every write works.
- The comment beside the vault's name test says that it excludes two dots in a row; it does not
  (`Backup.DotsAreProper`). Slashes, which it does exclude, are what `Backup.WrittenNames` is about.
- A device that declares itself visible while it is not connected is shown on line by the clients
  that watch it, though by no later snapshot. `PresenceSafety.VisibilityNeedsConnection` is the
  exact condition, `PresenceSafety.MisleadReachable` an input: a device that is being
  disconnected still has closing sockets.

## Model

| member | source | states |
|---|---|---|
| TwoParty.Agreement | crypto-engine/src/ratchet.cpp:89-290 | Two-party agreement: from a matching start, in every run where the network reorders, delays and drops, hands each packet over at most once, counters stay below 2^32 and no more than 1000 skipped keys are outstanding, every packet handed over opens to exactly its plaintext, across any number of DH steps |
| TwoParty.CachesHoldPendingKeys | crypto-engine/src/ratchet.cpp:66-101 | In every reachable state of an honest run each cached key is the key of one packet still on its way to that side, and no two cached keys are equal |
| TwoParty.NoSharedKeys | crypto-engine/src/ratchet.cpp:185-214 | The fixed nonce is sound for the whole conversation: in every honest run no two packets ever sent, by either side, are sealed under one key |
| TwoParty.CachesBehind | crypto-engine/src/ratchet.cpp:66-101 | In every reachable state of an honest run no key of the current receive chain is cached at or beyond its next index |
| TwoParty.StepInv | crypto-engine/src/ratchet.cpp:185-290 | Every send and delivery keeps the two-party invariant: one side exactly one chain ahead, both caches exactly the passed and undelivered messages |
| TwoParty.TurnParty | crypto-engine/src/ratchet.cpp:103-137 | A packet of the peer's new chain closes the old chain at its announced length, opens the new one, and yields its plaintext |
| TwoParty.ReceiveParty | crypto-engine/src/ratchet.cpp:89-101 | A packet at or ahead of the next index opens, the passed-over keys being exactly those that join the cache |
| TwoParty.TakeParty | crypto-engine/src/ratchet.cpp:78-87 | A late packet opens under its cached key, which leaves the cache |
| RatchetSafety.AcceptOnce | crypto-engine/src/ratchet.cpp:216-290 | Over any sequence of encryptions and deliveries of any headers and ciphertexts, failed ones included, no message key opens two deliveries and no ciphertext is accepted twice |
| RatchetSafety.NonceNeverReused | crypto-engine/src/ratchet.cpp:54-64 | The fixed zero nonce is sound: over any run no two encryptions of a session use the same message key, even when counters wrap |
| RatchetOutcome.TraceAuthentic | crypto-engine/src/ratchet.cpp:236-279 | Over any traffic, every packet that opens was sealed for the very header it carries and for both identities of the session, and opens to what was sealed |
| RatchetOutcome.ChangedHeaderRefused | crypto-engine/src/ratchet.cpp:236-279 | A header changed on the way, in any field, is refused in every state of every session |
| RatchetOutcome.CachedAnswer | crypto-engine/src/ratchet.cpp:244-258 | Late message: the first cached key for it decides the answer and leaves the cache either way |
| RatchetOutcome.ReplayAnswer | crypto-engine/src/ratchet.cpp:260-264 | Behind the index without a cached key: REPLAY_DETECTED, no change |
| RatchetOutcome.CurrentAnswer | crypto-engine/src/ratchet.cpp:271-289 | At or ahead of the index: opens exactly under the key at its place of the chain; more than 1000 ahead is SKIPPED_KEY_LIMIT without change |
| RatchetOutcome.TurningAnswer | crypto-engine/src/ratchet.cpp:266-289 | New remote key: refused without change when the old chain cannot be closed, otherwise the step is taken and the key at its place of the new chain decides |
| RatchetOutcome.RepeatIsReplay | crypto-engine/src/ratchet.cpp:260-264 | A packet read from a chain and delivered again is REPLAY_DETECTED and changes nothing |
| RatchetOutcome.LateRepeatIsReplay | crypto-engine/src/ratchet.cpp:244-264 | The same for a late packet of the current chain |
| RatchetOutcome.RefusedArguments | crypto-engine/src/ratchet.cpp:180-224 | SESSION_NOT_FOUND without a send chain, INVALID_ARG on refused arguments, no change |
| RatchetSecrecy.ForwardSecrecy | README.md:48-48 | Over any run, for the key of a message already sealed or opened: everything the session still holds (root, chains, cached keys) together with any private DH and KEM keys gives that key if and only if those private keys give the session key and have an end of every DH step between the session key and the message |
| RatchetSecrecy.HandshakeForwardSecrecy | crypto-engine/src/x3dh.cpp:117-204 | From the handshake on: the initiator's memory and any private keys give a used message key if and only if the keys open every input of the handshake and have an end of every DH step up to the message; in hybrid mode no set of DH keys does without the KEM key |
| RatchetSecrecy.ResponderForwardSecrecy | crypto-engine/src/x3dh.cpp:206-280 | The same if and only if for the responder, whatever handshake it accepted |
| RatchetSecrecy.DeviceForwardSecrecy | crypto-engine/src/ratchet.cpp:103-137 | When the whole device is taken: a message sealed after a DH step of any run, or opened on a receive chain opened after it, stays closed to everything the session holds and all private keys but the two of that step, those that open the handshake included |
| RatchetSecrecy.FirstChainExposed | crypto-engine/src/x3dh.cpp:206-270 | What is not protected: for every accepted handshake the private keys of the engine's identity file, the consumed one-time prekey among them, open the handshake and every message of the first receive chain |
| RatchetSecrecy.WayExact | crypto-engine/src/ratchet.cpp:42-64 | Private keys give a root, chain or message key exactly when they give its session key and have an end of every DH step in between |
| RatchetSecrecy.SessionKeyKnown | crypto-engine/src/x3dh.cpp:31-51 | Private keys give the initiator's session key if and only if they hold an end of each DH and, in hybrid mode, the KEM key |
| RatchetSecrecy.ClassicKeysSuffice | crypto-engine/src/x3dh.cpp:140-175 | The condition is needed: in classic mode the initiator's own private keys, had they been kept, give the key of its first message |
| RatchetSecrecy.PostCompromiseSecurity | crypto-engine/src/ratchet.cpp:103-137 | Whatever secrets, private DH keys and KEM keys are known, after one DH step between a new key and a peer key that are not known, no packet sealed in any later run, nor any packet of a receive chain that the run opens, can be opened with that knowledge |
| RatchetSecrecy.StepSecrecy | crypto-engine/src/ratchet.cpp:185-290 | Every encryption and delivery, failed ones included, leaves all used keys behind every secret that is kept |
| RatchetSafety.CacheExact | crypto-engine/src/ratchet.cpp:66-101 | Over any traffic the cache holds at most 1000 keys, each the message key of a receive chain that the run opened for its own DH key, at its own index, or at that index modulo 2^32 once a delivery has wrapped the counter |
| RatchetCache.SkippedKeySurvives | crypto-engine/src/ratchet.cpp:66-76 | Over any traffic a cached key that no delivery asks for is still cached as long as fewer than 1000 keys come after it |
| RatchetCache.RunIsCacheRun | crypto-engine/src/ratchet.cpp:66-101 | A session changes its cache only through one lookup per delivery and the stores of skipped keys, in this order |
| RatchetOrder.OrderIndependentExactly | crypto-engine/src/ratchet.cpp:89-101 | In every state that any traffic can reach, and for a batch of the current receive chain that fits beside the cache: every permutation of delivery yields each message's plaintext and one and the same final session, if and only if no cached key has the coordinates of a message of the batch |
| RatchetOrder.HonestOrderIndependence | crypto-engine/src/ratchet.cpp:89-101 | The same in every reachable state of an honest conversation, without a condition on what is cached |
| RatchetOrder.LeftoverKeyRefuses | crypto-engine/src/ratchet.cpp:244-258 | In every reachable state, a key cached under the coordinates of a coming message of the chain makes that message fail and is used up |
| RatchetOrder.LeftoverReachable | crypto-engine/src/ratchet.cpp:244-280 | Three packets of noise bring any new responder into such a state |
| Ratchet.SkipLoopFits | crypto-engine/src/ratchet.cpp:89-101 | While nothing is evicted, the skip loop appends exactly the passed-over keys in order and advances the chain by their number |
| Ratchet.ChainMayBeMissing | crypto-engine/src/ratchet.cpp:268-275 | A header naming the current remote key before any receive chain exists: the input on which the code derives from nothing |
| Ratchet.Session.StoreSkippedKey | crypto-engine/src/ratchet.cpp:66-76 | Appends, evicting the oldest of 1000 |
| Ratchet.Session.TakeSkippedKey | crypto-engine/src/ratchet.cpp:78-87 | Returns and removes the first key for the DH key and index, or changes nothing |
| Ratchet.Session.SkipRecvChainTo | crypto-engine/src/ratchet.cpp:89-101 | The loop computes the recursive skip; a distance over 1000 is refused without change |
| Ratchet.Session.DhRatchetStep | crypto-engine/src/ratchet.cpp:103-137 | The session state after a DH step |
| Ratchet.Session.EncryptMessage | crypto-engine/src/ratchet.cpp:177-214 | New state and packet of an encryption, or SESSION_NOT_FOUND without change |
| Ratchet.Session.DecryptMessage | crypto-engine/src/ratchet.cpp:216-290 | New state and answer of a decryption on every branch, failed ones included |
| HandshakeSafety.HandshakeAgreement | crypto-engine/src/x3dh.cpp:86-280 | For a bundle published by an engine with any past, served whole or without its one-time or PQ prekey, with any bundles, handshakes, settings and restarts in between but no rotation and no restart before a save has worked, both ends hold the same session key and additional data, and the responder's first receive chain is the initiator's send chain |
| HandshakeSafety.HandshakeThenConversation | crypto-engine/src/x3dh.cpp:117-280 | After such a handshake every packet handed over in every run of the conversation opens to its plaintext |
| HandshakeSafety.SecretsAgree | crypto-engine/src/x3dh.cpp:140-258 | The responder derives the initiator's session key in each of the four modes |
| HandshakeSafety.RunServes | crypto-engine/src/x3dh.cpp:86-115 | No generation, foreign handshake, setting or restart takes away what a published bundle needs, in memory and, once saved, on disk |
| Handshake.KeyInputInjective | crypto-engine/src/x3dh.cpp:31-51 | Mode separation: label and input bytes together determine all five values and which were present, although two modes hash 128 bytes |
| Handshake.DeriveInjective | crypto-engine/src/x3dh.cpp:31-51 | Different inputs or modes never give one session key |
| HandshakeSafety.FlagMismatchFails | crypto-engine/src/x3dh.cpp:174-258 | If the two ends disagree on the one-time-prekey or PQ flag, whatever else the responder read, the session keys differ and the first message fails to open |
| HandshakeOutcome.BundleAccepted | crypto-engine/src/x3dh.cpp:117-172 | A bundle opens a session if and only if its identity signed the signed prekey and any PQ prekey, all keys are usable, and a required PQ prekey is there; a prekey the identity never signed opens none |
| HandshakeOutcome.BundleRefused | crypto-engine/src/x3dh.cpp:119-172 | Which error each refused bundle gets, the signature before anything else |
| HandshakeOutcome.BundleGives | crypto-engine/src/x3dh.cpp:177-202 | Session and handshake message of an accepted bundle |
| HandshakeOutcome.HandshakeAccepted | crypto-engine/src/x3dh.cpp:206-255 | A handshake is accepted if and only if the engine is ready, its keys are usable, its one-time prekey is listed unconsumed, and a required PQ part is there |
| HandshakeOutcome.HandshakeRefused | crypto-engine/src/x3dh.cpp:208-255 | Which error each refused handshake gets |
| HandshakeOutcome.HandshakeGives | crypto-engine/src/x3dh.cpp:257-279 | The session is bound to both identities, and exactly the first matching one-time prekey is marked |
| HandshakeOutcome.AcceptanceSaves | crypto-engine/src/x3dh.cpp:267-270 | A handshake that used a one-time prekey is followed by a save, any other leaves the file |
| HandshakeOutcome.RequirementHolds | crypto-engine/src/x3dh.cpp:55-59 | Over runs, once the PQ requirement is set no classic session is opened at either end; a restart withdraws it |
| HandshakeOutcome.RotationInstalls | crypto-engine/src/x3dh.cpp:61-84 | Every rotation installs the drawn pairs under the engine's own signatures, whatever was there, keeps all else, and saves; without a KEM pair the new signed prekey stays, unsaved |
| HandshakeOutcome.RotatedBundle | crypto-engine/src/x3dh.cpp:61-115 | Over runs, every bundle published after a rotation carries the rotated keys |
| HandshakeOutcome.OldPrekeyDisagrees | crypto-engine/src/x3dh.cpp:61-258 | After a rotation a handshake on the old signed prekey no longer agrees and its first message fails |
| HandshakeOutcome.GenerationGives | crypto-engine/src/x3dh.cpp:86-115 | When a generation succeeds, what it publishes, and that it leaves present prekeys alone |
| HandshakeOutcome.InputLayout | crypto-engine/src/x3dh.cpp:34-49 | Label and place of each of the five values in the derivation input |
| Handshake.FillInput | crypto-engine/src/x3dh.cpp:31-51 | The buffer filled behind a moving offset holds exactly the concatenated inputs of the mode |
| HandshakeSafety.SingleUse | crypto-engine/src/x3dh.cpp:227-270 | Over every run of generations, handshakes, rotations, settings and restarts with new key pairs, saves failing at will, no one-time prekey backs two successful handshakes as long as no restart comes while a consumption is not on disk |
| HandshakeOutcome.SingleUseWhenSaved | crypto-engine/src/x3dh.cpp:227-270 | When every save works, no one-time prekey backs two handshakes over any run, restarts included |
| HandshakeSafety.RestartReusesExactly | crypto-engine/src/x3dh.cpp:267-270 | After a run of that kind, a restart makes some accepted handshake acceptable again if and only if a consumption is not on disk |
| HandshakeSafety.ReuseReachable | crypto-engine/src/x3dh.cpp:227-270 | The input: publish, accept with a failing save, restart; the same handshake is accepted a second time |
| HandshakeSafety.RestartReaccepts | crypto-engine/src/x3dh.cpp:227-270 | After any run at all, a restarted engine accepts a given handshake again if and only if its one-time prekey is unconsumed on disk |
| HandshakeSafety.LaterSaveRepairs | crypto-engine/src/x3dh.cpp:97-102 | A later generation whose save works makes up for the failed save after a handshake |
| PrekeyFile.RestartReadsFile | crypto-engine/src/storage/identity_store.cpp:81-168 | Whatever the bytes stand for, a restart puts into memory what reading back the identity file gives |
| PrekeyFile.ConsumedByteDecides | crypto-engine/src/storage/identity_store.cpp:107-165 | An engine restarted from its file accepts a proper handshake on a one-time prekey if and only if the file lists it with a zero `consumed` byte |
| HandshakeSafety.FailedAcceptFrames | crypto-engine/src/x3dh.cpp:206-255 | A failing accept leaves memory and disk unchanged |
| Handshake.PrekeyStore.RotatePrekeys | crypto-engine/src/x3dh.cpp:61-84 | New signed and PQ prekeys; a missing KEM pair leaves the new signed prekey behind, unsaved |
| Handshake.PrekeyStore.GenerateBundle | crypto-engine/src/x3dh.cpp:86-115 | Rotates when a prekey is missing, adds one one-time prekey, saves, publishes it |
| Handshake.PrekeyStore.AcceptHandshake | crypto-engine/src/x3dh.cpp:206-280 | Session or error, and the prekey marked and saved, on every branch |
| SenderKeys.TableRefinesMap | crypto-engine/src/sender_keys.cpp:91-316 | Over every run from an empty engine the entry vector answers as a map keyed by group and sender |
| SenderKeys.StepRefines | crypto-engine/src/sender_keys.cpp:118-316 | Each call keeps names unique and commutes with the abstraction to the map |
| SenderKeys.CallFrames | crypto-engine/src/sender_keys.cpp:132-200 | A call changes no entry but its own, and a distribution never reaches our own entry whatever names it comes under |
| SenderKeys.EpochIsolation | crypto-engine/src/sender_keys.cpp:183-274 | After any run a message opens only under a signature of the epoch last installed for its sender; any other is refused with no state change |
| GroupOutcome.GroupsStayApart | crypto-engine/src/sender_keys.cpp:224-311 | No message said for one group is ever heard under another, by any engine and whatever distributions were processed |
| GroupOutcome.EntryRefuses | crypto-engine/src/sender_keys.cpp:269-284 | Bad signature, read iteration, or more than 2000 ahead: each its own error, before any change |
| GroupOutcome.LateAnswer | crypto-engine/src/sender_keys.cpp:280-311 | Late message: the kept key decides, for this group only, and is used up either way |
| GroupOutcome.AheadAnswer | crypto-engine/src/sender_keys.cpp:284-311 | At or ahead of the iteration: the key at its place of the chain decides, for this group only, and the chain moves beyond it either way |
| GroupOutcome.CallRefused | crypto-engine/src/sender_keys.cpp:120-264 | Which calls are refused without change, and how |
| GroupOutcome.DistributionCarriesChain | crypto-engine/src/sender_keys.cpp:118-200 | Whoever processes a distribution stands where its creator stands |
| SenderKeys.Engine.FindEntry | crypto-engine/src/sender_keys.cpp:91-97 | The first entry for the names, or none |
| SenderKeys.Engine.CreateKey | crypto-engine/src/sender_keys.cpp:118-164 | Installs or replaces our entry with a new chain and no skipped keys, and distributes it |
| SenderKeys.Engine.ProcessDistribution | crypto-engine/src/sender_keys.cpp:166-200 | Installs or replaces the member's entry, or refuses without change |
| SenderKeys.Engine.EncryptMessage | crypto-engine/src/sender_keys.cpp:202-247 | New entry and signed message, or SESSION_NOT_FOUND |
| SenderKeys.Engine.CatchUpTo | crypto-engine/src/sender_keys.cpp:287-293 | The loop computes the recursive catch-up and touches no other entry |
| SenderKeys.Engine.DecryptMessage | crypto-engine/src/sender_keys.cpp:249-316 | New entry and answer on every branch |
| GroupBroadcast.Broadcast | crypto-engine/src/sender_keys.cpp:118-316 | The sender rotates and any number of members process its distributions whenever they please, each with its own order, losses and repeats and at most 2000 outstanding iterations: each opens, of the messages handed to it, exactly those of the epoch it holds on first hearing, answers repeats with REPLAY_DETECTED and other epochs with SIGNATURE_INVALID, changing nothing |
| GroupBroadcast.CacheShape | crypto-engine/src/sender_keys.cpp:99-114 | After a distribution and any traffic below counter wrap, kept keys are strictly increasing, below the current iteration, at most 2000, each the key at its place of the distributed chain, and a suffix of the skipped but unread ones |
| GroupBroadcast.HearLate | crypto-engine/src/sender_keys.cpp:280-282 | A late message opens under its kept key |
| GroupBroadcast.HearNew | crypto-engine/src/sender_keys.cpp:284-297 | A message ahead opens and the iterations passed over are kept |
| GroupBroadcast.HearAgain | crypto-engine/src/sender_keys.cpp:280-282 | A repeat is REPLAY_DETECTED and changes nothing |
| GroupSafety.GroupNonceNeverReused | crypto-engine/src/sender_keys.cpp:202-247 | The fixed zero nonce is sound: over every run of an engine that draws its chain keys no two messages it encrypts, for any groups, are sealed under one key |
| GroupSafety.GroupAcceptOnce | crypto-engine/src/sender_keys.cpp:249-316 | After a distribution, over any traffic, signed or forged, no ciphertext and no message key is opened twice, even when the iteration wraps |
| SessionCodec.RoundTrip | crypto-engine/src/session.cpp:36-125 | Any session with any number of skipped keys is read back as it was, up to the bytes of absent chain keys, and writes the same file again |
| SessionCodec.PrefixFree | crypto-engine/src/session.cpp:72-125 | Every strict extension of an accepted file is refused |
| SessionCodec.TruncationRefused | crypto-engine/src/session.cpp:72-125 | Every strict prefix of a written file is refused |
| FileLayout.SessionReads | crypto-engine/src/session.cpp:72-125 | A byte string is a session file if and only if its length is 275 plus 68 per announced entry; every field is read at its offset, any non-zero flag meaning present |
| FileLayout.SessionLayout | crypto-engine/src/session.cpp:43-70 | Every field of a written session lies at its offset |
| FileLayout.U32Bytes | crypto-engine/src/session.cpp:14-19 | The four bytes of a number, lowest first |
| SessionCodec.RestoredBehavesAsSaved | crypto-engine/src/session.cpp:36-125 | Whatever the bytes stand for, the restored session answers every later run of encryptions and deliveries as the saved one |
| SessionCodec.SerializeState | crypto-engine/src/session.cpp:43-70 | The appending writer produces the specified bytes |
| SessionCodec.SessionRecord.DeserializeState | crypto-engine/src/session.cpp:72-125 | The bounds-checked reader accepts exactly the specified files and fills the session with their content |
| IdentityCodec.RoundTrip | crypto-engine/src/storage/identity_store.cpp:81-168 | Format 2 with any number of one-time prekeys is read back completely into any engine |
| IdentityCodec.MigratesV1 | crypto-engine/src/storage/identity_store.cpp:116-168 | A format 1 file is read back as the same identity without a PQ prekey |
| IdentityCodec.PrefixFree | crypto-engine/src/storage/identity_store.cpp:116-168 | Every strict extension of an accepted file of either format is refused |
| IdentityCodec.TruncationRefused | crypto-engine/src/storage/identity_store.cpp:116-168 | Every strict prefix of an accepted file is refused |
| FileLayout.IdentityReads | crypto-engine/src/storage/identity_store.cpp:116-168 | A byte string is an identity file if and only if its version is 1 or 2 and its length is what its flags and its count call for; every field is read at its offset |
| FileLayout.IdentityLayout | crypto-engine/src/storage/identity_store.cpp:81-114 | Format 2 is written, every field at its offset |
| IdentityCodec.SerializeIdentity | crypto-engine/src/storage/identity_store.cpp:81-114 | The appending writer produces the specified bytes |
| IdentityCodec.IdentityRecord.DeserializeIdentity | crypto-engine/src/storage/identity_store.cpp:116-168 | The reader accepts exactly the specified files of both formats and fills the engine with their content |
| Bytes.ValueOfLittleEndian | crypto-engine/src/session.cpp:14-24 | Reading little-endian bytes undoes writing them |
| Bytes.LittleEndianOfValue | crypto-engine/src/session.cpp:14-24 | Writing undoes reading |
| Bytes.Reader.ReadBytes | crypto-engine/src/storage/identity_store.cpp:51-56 | A read takes exactly the next bytes, or fails and moves nothing; the cursor never passes the end |
| Bytes.Reader.ReadU32 | crypto-engine/src/storage/identity_store.cpp:58-64 | The next four bytes as a number |
| Bytes.Reader.AtEnd | crypto-engine/src/storage/identity_store.cpp:71-71 | Whether nothing is left |
| Backup.RoundTrip | crypto-engine/src/backup.cpp:146-304 | Importing an export on any engine succeeds exactly when every listed entry was read by the export and its write works on import; it then restores the identity and overrides the vault with the listed entries |
| Backup.OverrideExact | crypto-engine/src/backup.cpp:300-302 | The vault after the import holds each listed entry and every other entry it had |
| Backup.EntryConsumes | crypto-engine/src/backup.cpp:284-304 | On arbitrary bytes each completed entry consumes nine bytes, its name and its data, and leaves a suffix |
| Backup.EntriesBounded | crypto-engine/src/backup.cpp:284-304 | Whatever count is declared, at most a ninth of the bytes can be entries |
| Backup.ImportExactly | crypto-engine/src/backup.cpp:279-311 | On any plaintext, an import succeeds if and only if every declared entry is there, identities read back, vault names are proper and their writes work, and an identity is among them; the vault then holds what the vault entries left |
| Backup.DotsAreProper | crypto-engine/src/storage/secure_blob.cpp:18-25 | A name of two dots passes the test, an empty one and one with a slash do not |
| Backup.WrittenNames | crypto-engine/src/storage/secure_blob.cpp:20-41 | What an import adds to the vault has a proper name: never empty, over 128 bytes, or with a slash |
| Backup.PutInteger | crypto-engine/src/backup.cpp:68-74 | The byte loop appends the little-endian form |
| Backup.GetInteger | crypto-engine/src/backup.cpp:93-99 | The descending loop computes the little-endian value |
| Backup.ExportPlain | crypto-engine/src/backup.cpp:146-167 | The entry-writing loop produces the specified plaintext |
| Backup.Device.ImportPlain | crypto-engine/src/backup.cpp:279-311 | The entry-reading loop accepts exactly what the specification accepts and leaves its result |
| PresenceSafety.PresenceConsistent | server/src/ws/gateway.ts:91-440 | In every interleaving the subscription and observer maps are exact inverses without empty sets, `byDevice` holds exactly the open sockets, and each open client shows, on its subscription, exactly the visible connected devices |
| PresenceReference.PresenceFollowsHistory | server/src/ws/gateway.ts:91-440 | From the step history alone: exactly those devices are on line that last declared themselves visible since they were last without a socket, every socket watches what it was last granted less what was revoked, and every open client shows, of what it watches, exactly those devices |
| PresenceReference.SnapshotFollowsHistory | server/src/ws/gateway.ts:329-336 | A snapshot lists, of what was granted, exactly those devices |
| PresenceReference.DeclarationDecides | server/src/ws/gateway.ts:283-292 | A declaration makes exactly this device visible or not, and changes no other |
| PresenceSafety.ViewExact | server/src/ws/gateway.ts:305-367 | As long as no revocation happens, the client's whole view is the granted devices that are on line |
| PresenceSafety.ClosedForGood | server/src/ws/gateway.ts:97-111 | A closed socket is in none of the maps at any later time, whatever answers were under way for it |
| PresenceSafety.BlockSilences | server/src/ws/gateway.ts:377-394 | After a revocation a client of one account watches no device of the other and hears nothing about it until an answer to one of its own requests arrives |
| PresenceSafety.RevokeExact | server/src/ws/gateway.ts:377-394 | A revocation takes exactly the forbidden pairs out of both maps and keeps the index consistent |
| PresenceSafety.VisibilityNeedsConnection | server/src/ws/gateway.ts:283-292 | Declaring visibility keeps the index consistent if and only if a device that becomes visible is connected |
| PresenceSafety.ClosingSocketMisleads | server/src/ws/gateway.ts:283-292 | When a device that is not connected declares itself visible, an open client watching it shows it, no snapshot does, and nothing is told when the closing socket is gone |
| PresenceSafety.MisleadReachable | server/src/ws/gateway.ts:424-440 | A run that reaches such a state: connect, subscribe, disconnect the device; its closing socket is still a holder |
| PresenceSafety.SubscribeExact | server/src/ws/gateway.ts:305-336 | A subscription replaces the previous one, leaves all others, and its snapshot is exact |
| PresenceSafety.DetachKeeps | server/src/ws/gateway.ts:97-111 | Closing a socket keeps the index consistent |
| PresenceSafety.DisconnectKeeps | server/src/ws/gateway.ts:424-440 | Disconnecting a device keeps the index consistent while its sockets are still closing |
| Presence.Gateway.Detached | server/src/ws/gateway.ts:97-111 | State and views after a close; off line is told only when the last socket goes |
| Presence.Gateway.Desubscribe | server/src/ws/gateway.ts:339-349 | Visiting the socket's own targets sweeps it out of every set |
| Presence.Gateway.Broadcast | server/src/ws/gateway.ts:360-367 | Exactly the open observers are told |
| Presence.Gateway.DeclareVisibility | server/src/ws/gateway.ts:283-292 | State and views after a visibility message |
| Presence.Gateway.Answer | server/src/ws/gateway.ts:316-336 | State and snapshot once the authorisation has returned |
| Presence.Gateway.IsOnline | server/src/ws/gateway.ts:352-358 | Visible, and some socket open |
| Presence.Gateway.Revoked | server/src/ws/gateway.ts:377-394 | The nested loops filter both maps at once |
| Presence.Gateway.Disconnected | server/src/ws/gateway.ts:424-440 | State and views after a device is disconnected |
| Base32.RoundTrip | server/src/lib/totp.ts:33-65 | Decoding the encoding of any byte string gives it back |
| Base32.CaseIgnored | server/src/lib/totp.ts:50-50 | Two texts that differ only in ASCII letter case decode alike |
| Base32.PaddingIgnored | server/src/lib/totp.ts:50-50 | Trailing padding does not matter |
| Base32.SpaceIgnored | server/src/lib/totp.ts:50-50 | White space between other characters does not matter |
| Base32.SpaceBehindPadding | server/src/lib/totp.ts:50-57 | Padding is stripped first: a space behind it makes the text an error |
| Base32.Encode | server/src/lib/totp.ts:33-47 | The loops with a wrapping accumulator compute the unpadded base32 of section 6 of RFC 4648 |
| Base32.Decode | server/src/lib/totp.ts:49-65 | The loop decodes every text whose upper case, without trailing padding and white space, is spelled in the alphabet, and refuses every other |
| Base32.ShiftInHolds | server/src/lib/totp.ts:38-38 | Shifting in appends to the pending bits although the accumulator wraps at 32 bits |
| Base32.TopBits | server/src/lib/totp.ts:40-43 | Shifting right and masking reads the top pending bits and leaves the others, whatever lies above |
| Base32.AlphabetSpelled | server/src/lib/totp.ts:31-31 | Indexing the alphabet and searching it undo each other |

## Left out

- The primitives (HMAC, HKDF, X25519, Ed25519, ML-KEM, AEAD, Argon2, secretstream) are symbolic terms; computational assumptions are not modelled.
- Ratchet.Session.DhRatchetStep: on a small-order key the primitive fails without writing its output, the failure is ignored and `dh_out` was never initialised; that the buffer then holds zeros is an assumption about memory. The handshake refuses such keys, as the code does.
- Ratchet.Session.DecryptMessage: requires a receive chain where the code uses one; without it the code hashes under an empty key buffer, which has no defined behaviour.
- Failing encryption and allocation failures are not modelled.
- The 40-byte ratchet header and the byte layout of distributions and group messages are values, not bytes.
- What a refused `deserialize` or import leaves behind in a half-filled engine is not described; callers discard it.
- The encryption around session, identity and backup files, the passphrase, file renames and the identity save that follows an import are not modelled; a save succeeds or fails as a whole.
- GroupBroadcast.CacheShape: stated below counter wrap, for messages whose iteration is not 2^32 - 1.
- Agreement under repeated delivery of packets of superseded chains: the code does not establish it.
- Presence: closing a socket is one step with its `detach`, except that `deconnecterAppareil` leaves its sockets closing until their close events; messages are handled only from attached sockets. The limit on the number of requested devices and the content of the authorisation are covered by an arbitrary answer.
- A subscription answer computed before a block may arrive after it and restore a subscription; the code does not exclude it.
- Presence relays for typing and calls, push wake-ups and pending-message notices do not touch the index.
- HOTP and TOTP digits, safety numbers, attachments, channels, sealed sender, application lock, vault and release signatures would only add easy members.
- Database routes, tokens, rate limits, storage services, platform key stores, language bindings and user interfaces are outside the model.
