# Quantum Bunker verification

Dafny models of the parts of the program whose correctness is hardest to see by
reading, and proofs about them. `dafny verify dfyconfig.toml` checks everything.

## What is modelled

**The end-to-end channel.** `Symbolic` gives secrets as terms: two secrets are
equal exactly when they were computed alike, DH is commutative, and a box opens
only under the key, nonce and associated data it was sealed with. On top of it:

- `DoubleRatchet` is the ratchet on values and `DoubleRatchetClass` the object
  that works on a copy and commits it. `RatchetLadder` lays the root keys of a
  conversation out as one ladder; `RatchetSkip`, `RatchetReceive` and
  `RatchetAuthentic` say what one call does to a party's place on it; `RatchetRun`
  is a conversation over a network that may reorder, lose, repeat and forge;
  `RatchetTheorems` holds the results, and `RatchetSecrecy` what one secret gives
  away about the others.
- `Noise` and `NoiseClass` are the XX handshake (sections 5.1 to 5.3 and 7.5 of
  the Noise Protocol Framework, revision 34), `NoiseProof` the agreement of its
  two sides, `HandshakeSecrets` which DH results its keys are made of, `Prologue`
  the binding to a session and a pair of peers.
- `PeerChannels` and `PeerChannelsClass` are the channel manager.
  `HandshakeShapes` and `ChannelAgreement` treat one pair, `ChannelNetwork` any
  number of clients over FIFO wires, each of them also hearing what is meant for
  others, `ChannelConvergence` the progress of a handshake, `ChannelRecovery`
  from which states there is progress,
  `SafetyNumbers` and `ChannelPhases` what a relay that alters frames can bring
  about, `ChannelKeys` where the keys of a channel come from, `ChannelMessages`
  the messages sent over ready channels, and
  `ChannelConversations` the network with handshakes and messages together.
- `MessagePadding` is the padding in front of the ratchet.

**Streamed files.** `FileStream` has the frames byte by byte, the sender's loop
and the receiving object; `FileStreamProof` the integrity of what it yields;
`ByteCodec` the fixed-width integers.

**The relay.** `Sessions` is the session record. `Admission` is one session with
its sockets on values. `AdmissionMembers` says of every event what it leaves of
everybody's place, `AdmissionProof` has its invariant and its capacity,
`AdmissionAuthority` who is let in and who holds an identity, and
`AdmissionPresence` who is counted without a socket, each over every run.
`WsTransportClass` has the transport's maps and the shared session objects.
`SessionStore` and `SessionStoreClass` are the store that remembers deleted
objects by identity, with the create and refresh use cases. `ReplayCache`,
`ReplayCacheClass`, `RelayMessage` and `Membership` are the two replay guards and
what they mean for an envelope and a join proof, `CanonicalText` the text that
tokens and proofs sign; `RateLimit` and `RateLimitClass` the fixed-window limiters.

**Client queues.** `SendQueue`, `SendQueueClass` and `SendQueueProof` are the
paced priority queue, `PeerMailbox`, `PeerMailboxClass` and `MailboxHistory` the
store-and-forward buffer. `OrderedMap` is JavaScript's insertion-ordered `Map`,
including iteration over a map that the loop body changes.

Objects the program updates in place are classes here; each method is proved to
do what a function on values does, and the results over whole runs are proved
about those functions. Time is an integer number of milliseconds given to each
call; random draws (key pairs, ids, tokens) are arguments, new where a statement
says so. Tokens of the pacer are counted in thousandths, which makes a whole rate
exact. Each frame, close event, use case or sweep is one step.

## Where the code does not give what one might expect

- A timer of the pacer that fires on a non-empty queue may send nothing
  (`SendQueueProof.FiringMaySendNothing`), because an enqueue that ran after the
  due time took the token. `SendQueueProof.FiringSends` is the exact condition,
  and `SendQueueProof.TimerCycleSends` what holds always.
- Pacing at a rate below the relay's limit does not keep every window below it:
  the bound in `SendQueueProof.RateBound` allows, and `SendQueueProof.BoundIsMet`
  shows, twice the rate in one second (twelve frames at the rate of six used in
  src/transport/send-queue.ts:21, against ten in line 17).
- Padding is undone only for contents whose length fits the 32-bit field, and a
  transfer of 2^32 chunks or more always fails
  (`MessagePadding.UnpadUndoesPad`, `FileStreamProof.RoundTrip`).
- Peers are looked up by `session.peers[peerId]` on a plain object, which also
  answers to the names every object inherits. Ten of those names, `toString`
  among them, are valid peer ids (src/shared/contracts/v1/schemas.ts:29-34). A
  stranger that joins under one is admitted without any credential and into a
  full session. `AdmissionProof.StrangersOverfill` is a run;
  `AdmissionProof.CapacityExactly` and `AdmissionAuthority.AuthorityExactly` say
  exactly which runs keep capacity and authority.
- A join that presents no token, or a wrong one, is made the member it names and
  is told that member's token when no open socket holds the name
  (`AdmissionAuthority.JoinedExactly`, `AdmissionAuthority.TakeoverExactly`,
  `AdmissionAuthority.StrangerTakesOver`).
- A rejected guest's id stays in the presence set after its socket is gone, and a
  guest that became a member while its request was pending is then a member that
  is counted as present without a socket (`AdmissionPresence.GuestOrphaned`). Its
  slot is not reclaimed and the session is not marked empty, until it joins
  again, loses the host's role, is kicked by the host of a group, or the session ends
  (`AdmissionPresence.OrphanStaysExactly`, `AdmissionPresence.OrphanKeepsOpen`).
  `AdmissionPresence.PresenceMatchesSockets` and
  `AdmissionPresence.MembersBackedExactly` say exactly when the presence set and
  the sockets part. The comment at
  src/backend/adapters/transport/ws.transport.ts:74 says presence is derived from
  live sockets.
- A responder that reloads between its answer and the confirmation leaves a pair
  half open: the initiator is ready and seals for a peer that is not, and ensuring
  the channel again on either side does not help
  (`ChannelRecovery.ReloadHalfOpens`, `ChannelRecovery.HalfOpenStays`).
  `ChannelRecovery.ConvergesExactly` is the exact condition on the phases.
- Refreshing a session brings its expiry nearer when over fifteen minutes were
  left (`SessionStore.RefreshExactly`).
- A join proof whose timestamp is not a number passes the freshness window for as
  long as its token lives, and is let in again once the guard has forgotten its
  nonce (`Membership.ProofServesTwice`, `Membership.ServesOnceExactly`).
- An envelope refused because nobody could be reached has spent its nonce, so the
  same envelope is refused as a duplicate when it is sent again while the cache
  remembers it (`RelayMessage.RefusedThenDuplicate`,
  `RelayMessage.ResendIsDuplicate`).

## Model

| member | source | states |
|---|---|---|
| `RatchetTheorems.OpensIffSentAndWithinReach` | src/crypto/double-ratchet.ts:128-182 | In every conversation, whatever the adversary delivers, a frame opens if and only if the peer sent exactly that frame and its key is stored, or it is at most 100 ahead in the current chain, or in the next chain with both gaps at most 100; it then opens to exactly the plaintext that went in |
| `RatchetTheorems.NoKeySealsTwice` | src/crypto/double-ratchet.ts:19-38 | Over a whole run of both parties, no message key seals two messages, so the constant nonce is safe |
| `RatchetTheorems.ReceiptsAuthentic` | src/crypto/double-ratchet.ts:153-182 | Everything ever opened was sent by the peer with that plaintext, and nothing was opened twice by one party |
| `RatchetTheorems.ReplayThrows` | src/crypto/double-ratchet.ts:153-182 | Delivering a frame that was opened before always throws |
| `RatchetTheorems.Lockstep` | src/crypto/double-ratchet.ts:66-80 | In every conversation each receive chain is a position on the peer's send chain, nobody is more than one chain ahead, and the two roots are at most one DH step apart, the responder's send-first step included |
| `RatchetTheorems.StoreTruth` | src/crypto/double-ratchet.ts:82-99 | At most 1000 skipped keys are held; each is the key of a frame the peer did send under that header and that was not opened yet |
| `RatchetTheorems.ConversationInv` | src/crypto/double-ratchet.ts:101-183 | Every conversation, however its frames were delivered, satisfies the invariant behind the theorems: both parties sit on one ladder of root keys and the log is exactly what the ladder sealed |
| `RatchetAuthentic.OpensIffReachable` | src/crypto/double-ratchet.ts:153-182 | From any state in step with the peer, message n of chain c opens exactly when it is stored, in reach of the current chain, or in reach of the next |
| `RatchetAuthentic.OpenedDerived` | src/crypto/double-ratchet.ts:159-181 | Only a box sealed under a key derived from the session root ever opens, whatever the header claims |
| `RatchetAuthentic.ConsumedUnreachable` | src/crypto/double-ratchet.ts:159-181 | A message already opened is in none of the places a frame can be opened from |
| `RatchetAuthentic.RefusedExactly` | src/crypto/double-ratchet.ts:82-182 | In any state whatever: which frames are refused as undecodable, as skipping more than a hundred keys, or for want of a receive chain; and a refused frame changes nothing |
| `RatchetReceive.OpenStored` | src/crypto/double-ratchet.ts:159-166 | A message whose key was stranded opens, uses its key up and leaves the chains and every other message's fate alone |
| `RatchetReceive.OpenCurrent` | src/crypto/double-ratchet.ts:174-181 | A later message of the current chain opens, stores the keys it passed, and keeps the receiver in step |
| `RatchetReceive.OpenNext` | src/crypto/double-ratchet.ts:168-181 | The first message of the peer's next chain opens, and both sides are in step on the new chain |
| `RatchetReceive.SkipInStep` | src/crypto/double-ratchet.ts:82-99 | Skipping within what the sender has sent and within the limit succeeds and keeps the receiver on the sender's chain |
| `RatchetSkip.SkipChainFifo` | src/crypto/double-ratchet.ts:86-97 | After a skip the store holds the newest 1000 of the old keys followed by the skipped ones, in that order |
| `RatchetSkip.SkipChainEntries` | src/crypto/double-ratchet.ts:86-97 | Whatever a skip adds to the store is the true key of a message it passed, and nothing else changes |
| `RatchetSkip.EvictKeepsNewest` | src/crypto/double-ratchet.ts:90-94 | The eviction loop leaves exactly the newest 1000 keys, in order, untouched |
| `RatchetLadder.MessageKeysDistinct` | src/crypto/double-ratchet.ts:19-28 | Two positions of a conversation, in either direction, have the same message key only if they are the same position |
| `RatchetLadder.InitInStep` | src/crypto/double-ratchet.ts:107-118 | The initiator's and the responder's initial states are in step on the first chain |
| `RatchetSecrecy.KeyGivesNothingAway` | src/crypto/double-ratchet.ts:25-28 | In every conversation, from the key of one frame follow neither the key of any other frame, before or after it, in either direction, nor a root or a chain key that either party holds; all other HKDF inputs granted |
| `RatchetSecrecy.ExposedExactly` | src/crypto/double-ratchet.ts:66-99 | Forward secrecy, exactly: whoever reads a party's whole state can derive the key of a frame sent so far if and only if the peer sent it and its key is stranded, or it is on the receive chain and not passed, or it is on the peer's next chain |
| `RatchetSecrecy.OpenedIsForgotten` | src/crypto/double-ratchet.ts:159-181 | The key of a frame that was opened cannot be derived from anything its receiver still holds |
| `RatchetSecrecy.Heals` | src/crypto/double-ratchet.ts:66-80 | Healing: somebody reads a party's whole state and knows any private keys besides; from then on, as soon as either party sends under a ratchet key drawn since, and neither that nor the peer's key it answers is one they know, they cannot obtain the key of what it seals |
| `RatchetSecrecy.MessageKeyDerives` | src/crypto/double-ratchet.ts:25-28 | For all positions of a conversation: a message key yields another exactly if it is the same one, and yields no chain key and no root |
| `RatchetSecrecy.ChainKeyDerives` | src/crypto/double-ratchet.ts:25-28 | A chain key yields exactly the message keys of its own chain from its position on |
| `RatchetSecrecy.RootKeyDerives` | src/crypto/double-ratchet.ts:19-22 | A root key yields exactly the message keys of the chains above it |
| `DoubleRatchetClass.DoubleRatchet.InitAlice` | src/crypto/double-ratchet.ts:107-110 | The new object is the initiator's state of the specification |
| `DoubleRatchetClass.DoubleRatchet.InitBob` | src/crypto/double-ratchet.ts:115-118 | The new object is the responder's state of the specification, with a receive chain and no send chain |
| `DoubleRatchetClass.DRState.Clone` | src/crypto/double-ratchet.ts:52-64 | The copy is a new record with the same contents |
| `DoubleRatchetClass.DRState.DhRatchet` | src/crypto/double-ratchet.ts:66-80 | The record becomes what the specification's DH step makes of it |
| `DoubleRatchetClass.DRState.SkipMessageKeys` | src/crypto/double-ratchet.ts:82-99 | The loop over the chain, with its inner eviction, computes the specification's skip, or throws with the record unchanged |
| `DoubleRatchetClass.DRState.EvictOldest` | src/crypto/double-ratchet.ts:90-94 | The inner loop drops the oldest keys until the cap holds |
| `DoubleRatchetClass.DoubleRatchet.Encrypt` | src/crypto/double-ratchet.ts:128-147 | New state and frame are those of the specification, including the send-first step |
| `DoubleRatchetClass.DoubleRatchet.Decrypt` | src/crypto/double-ratchet.ts:153-182 | New state and result are those of the specification; on every throwing path the session still points to its old record, and that record is unchanged |
| `MessagePadding.UnpadUndoesPad` | src/crypto/message-padding.ts:25-40 | Unpadding gives the content back if and only if its length fits the 32-bit length field |
| `MessagePadding.UnpadsToWhatItFrames` | src/crypto/message-padding.ts:34-40 | Whatever the buffer: it unpads to a content if and only if it is the 32-bit length of the content, the content and something behind it |
| `MessagePadding.PaddedLengthMonotone` | src/crypto/message-padding.ts:18-32 | A longer content never gets a shorter padded form |
| `MessagePadding.PaddedLengthHidesLength` | src/crypto/message-padding.ts:18-32 | Contents of one tier have the same padded length |
| `MessagePadding.TargetSize` | src/crypto/message-padding.ts:18-23 | The loop returns the least tier that fits, or the framed length above the top tier |
| `MessagePadding.PadPlaintext` | src/crypto/message-padding.ts:25-32 | The buffer written in place is the length, the content and the filler |
| `FileStreamProof.FeedHolds` | src/crypto/file-stream.ts:209-267 | For any frames whatever (reordered, dropped, repeated, spliced), a receiver that has not failed holds exactly the first `next` chunks of the source |
| `FileStreamProof.ResultIsWholeSource` | src/crypto/file-stream.ts:269-288 | A result is the whole source or there is none, and there is one exactly when every chunk came in |
| `FileStreamProof.TakesExactly` | src/crypto/file-stream.ts:137-148 | Whatever was announced and whatever the key: a receiver takes a frame exactly if it is long enough, has the magic bytes and the version, the next index, the announced count and file id, and opens under them; any other ends the transfer and drops what was held |
| `FileStreamProof.ResultAsAnnounced` | src/crypto/file-stream.ts:269-288 | Whatever was announced and whatever frames came: there is a result exactly when none was refused and parts and bytes add up to what was announced |
| `FileStreamProof.ChunkSizes` | src/crypto/file-stream.ts:104-106 | As few chunks as hold the source: none of them empty, all but the last full |
| `FileStreamProof.FailureIsPermanent` | src/crypto/file-stream.ts:241-250 | A failed receiver stays failed, without parts or result, whatever arrives |
| `FileStreamProof.CompletionIsFinal` | src/crypto/file-stream.ts:241-260 | Nothing that arrives after completion changes the result |
| `FileStreamProof.RoundTrip` | src/crypto/file-stream.ts:165-200 | Feeding a transfer's own frames in order yields its source if and only if its chunks can be counted in 32 bits |
| `FileStreamProof.FeedWrapped` | src/crypto/file-stream.ts:117-127 | Beyond 2^32 chunks the header's count wraps and the first frame fails the transfer |
| `FileStreamProof.ParseHeader` | src/crypto/file-stream.ts:137-148 | Parsing reads back the fields the header was built from, the counts modulo 2^32 |
| `FileStreamProof.NoncesDistinct` | src/crypto/file-stream.ts:111-115 | Two chunks share a nonce only if they are the same chunk |
| `FileStream.FrameHeader` | src/crypto/file-stream.ts:117-127 | The buffer filled field by field is the 30-byte big-endian header |
| `FileStream.SendAll` | src/crypto/file-stream.ts:187-197 | The generator loop yields exactly the transfer's frames, in order |
| `FileStream.FileStreamReceiver.AcceptFrame` | src/crypto/file-stream.ts:241-261 | State and thrown error after a frame are those of the specification |
| `FileStream.FileStreamReceiver.Fail` | src/crypto/file-stream.ts:290-294 | Failure is latched and the parts are dropped |
| `FileStream.FileStreamReceiver.Reassemble` | src/crypto/file-stream.ts:277-288 | The copying loop returns the parts end to end, or throws as the specification says |
| `ByteCodec.U32RoundTrip` | src/crypto/file-stream.ts:120-124 | Writing and reading a 32-bit field gives the value modulo 2^32 |
| `ByteCodec.LittleEndianInjective` | src/crypto/file-stream.ts:111-115 | The little-endian counter field is injective below its width |
| `NoiseProof.TokenAgrees` | src/crypto/noise-xx.ts:84-138 | One token, written on one side and read on the other, leaves both symmetric states equal |
| `NoiseProof.MessageAgrees` | src/crypto/noise-xx.ts:84-120 | A whole message written and read leaves the two sides agreeing and delivers its payload |
| `NoiseProof.HandshakeCompletes` | src/crypto/noise-xx.ts:78-145 | For all keys, payloads and one prologue, three messages end with equal hash and chaining key, crossed transport ciphers, each other's static key and all payloads intact |
| `NoiseProof.PrologueMismatchFails` | src/crypto/noise-xx.ts:47-56 | With different prologues message 1 still passes and message 2 always fails |
| `HandshakeSecrets.Transcript` | src/crypto/noise-xx.ts:84-145 | For all keys, payloads and prologues, what two honest sides put on the wire: key, number and hash of every box, no key and number twice, and the final chaining key and transport keys, as terms over the three DH results |
| `HandshakeSecrets.HandshakeSecretExactly` | src/crypto/noise-xx.ts:122-138 | The final chaining key can be computed by exactly those who know a private key of each of the three pairs: both ephemerals, initiator ephemeral and responder static, initiator static and responder ephemeral |
| `HandshakeSecrets.ReadTwoKeys` | src/crypto/noise-xx.ts:102-138 | Whatever message 2 was, whoever reads it has mixed in the DH of the two ephemeral keys and of the initiator ephemeral with the responder static key, and opened the static key and the payload under keys made of them |
| `HandshakeSecrets.ReadThreeKeys` | src/crypto/noise-xx.ts:102-138 | The same of message 3 and the DH of the initiator static and the responder ephemeral key |
| `HandshakeSecrets.ReadyRestsOnThreeKeys` | src/crypto/peer-channels.ts:148-206 | Whatever frames a relay hands a client: a channel that is ready holds the peer's ephemeral and static public key, its ratchet starts from a root made of all three DH results and the KEM secret, and whoever computes that root knows a private key of each pair and the KEM secret |
| `NoiseClass.CipherState.EncryptWithAd` | src/crypto/noise-primitives.ts:86-92 | Output and counter are those of the specification; without a key the text passes through |
| `NoiseClass.CipherState.DecryptWithAd` | src/crypto/noise-primitives.ts:94-101 | A box that does not open leaves the counter alone |
| `NoiseClass.SymmetricState.MixKey` | src/crypto/noise-primitives.ts:121-125 | Chaining key and cipher become those of the specification |
| `NoiseClass.SymmetricState.MixHash` | src/crypto/noise-primitives.ts:127-129 | The running hash takes in the data |
| `NoiseClass.SymmetricState.EncryptAndHash` | src/crypto/noise-primitives.ts:139-143 | The box is made under the old hash and hashed in |
| `NoiseClass.SymmetricState.DecryptAndHash` | src/crypto/noise-primitives.ts:145-149 | The box is opened under the old hash and hashed in only if it opened |
| `NoiseClass.SymmetricState.Split` | src/crypto/noise-primitives.ts:157-164 | Two new cipher objects under the two derived keys |
| `NoiseClass.HandshakeState.MixDH` | src/crypto/noise-xx.ts:122-138 | The DH of the token from this side's role is mixed in, or the call throws |
| `NoiseClass.CipherState.InitializeKey` | src/crypto/noise-primitives.ts:77-80 | A new key starts at counter zero |
| `NoiseClass.HandshakeState.Advance` | src/crypto/noise-xx.ts:140-145 | The last message splits the chaining key into two new ciphers |
| `NoiseClass.HandshakeState.WriteMessage` | src/crypto/noise-xx.ts:84-100 | The token loop computes the specification's message and state |
| `NoiseClass.HandshakeState.ReadMessage` | src/crypto/noise-xx.ts:102-120 | The token loop computes the specification's payload and state, keeping what was already mixed in when it throws |
| `Prologue.PrologueInjective` | src/crypto/peer-channels.ts:316-329 | Two prologues are equal only if session id, initiator and responder are |
| `ChannelNetwork.Agreement` | src/crypto/peer-channels.ts:103-207 | For any number of clients, after any order of ensuring, removing, reloading, delivery over FIFO wires and overhearing of frames meant for others: if both sides of a pair are ready and the wire from the initiator is empty, they mirror each other (one hybrid root, opposite roles, swapped ratchet keys, equal safety numbers, each other's static key) |
| `ChannelNetwork.OverhearingChangesNothing` | src/crypto/peer-channels.ts:128 | The relay hands every frame to all members: whatever copies reach clients they are not addressed to, early or late, once or often, the run ends where it would have ended without them |
| `ChannelConvergence.PairConverges` | src/crypto/peer-channels.ts:103-185 | Without reloads and removals, at most four frames are delivered between a pair whatever the order; once a side that had no channel ensured one and the wires are empty both are ready and mirror each other, whatever settled channel the initiator or whatever channel the responder had kept |
| `ChannelConvergence.EveryPairConverges` | src/crypto/peer-channels.ts:103-185 | Any finite set of fresh clients of one session ends with every pair ready |
| `ChannelRecovery.ConvergesExactly` | src/crypto/peer-channels.ts:103-185 | After any events and with nothing in flight between a pair, let each side ensure the channel and everything be delivered, without reloads and removals: the pair ends ready, each mirroring the other, if and only if before that the initiator had no channel, or the responder had none and the initiator was not in mid-handshake, or both were ready |
| `ChannelRecovery.ReloadHalfOpens` | src/crypto/peer-channels.ts:151-185 | From the start and for all draws: the responder answers message 1 and reloads, the initiator confirms; the initiator ends ready with nothing in flight, the responder not ready |
| `ChannelRecovery.HalfOpenStays` | src/crypto/peer-channels.ts:117-125 | Such a pair stays so through everything but reloads and removals, and the responder opens nothing it is sent |
| `ChannelAgreement.OnStep3Mirrors` | src/crypto/peer-channels.ts:172-206 | A responder made ready by a ready initiator's message 3 mirrors it |
| `ChannelAgreement.OnStep2Ready` | src/crypto/peer-channels.ts:148-160 | An initiator that message 2 makes ready has sent the message 3 its own hash records |
| `SafetyNumbers.SafetyNumbersDecide` | src/crypto/peer-channels.ts:187-207 | Two clients take whatever frames a relay hands them, genuine, altered or made up, in any order: wherever one has a ready channel as initiator and the other one as responder, the safety numbers are equal if and only if the channels mirror each other |
| `SafetyNumbers.EqualNumbersMirror` | src/crypto/peer-channels.ts:189-206 | The same for two ready channels that keep the invariant of any frames |
| `SafetyNumbers.MoveGenuine` | src/crypto/peer-channels.ts:103-185 | Every call and every frame whatever keeps that invariant |
| `ChannelPhases.ReadyLastsExactly` | src/crypto/peer-channels.ts:117-185 | Over any calls and any frames from anyone, a ready channel stays exactly as it is if and only if nobody removes the peer and no frame under its name is one of a listed few: a restart request to an initiator, a message 1, the message this side reads, or a payload that does not decode |
| `ChannelPhases.Message2Settles` | src/crypto/peer-channels.ts:148-160 | Whatever frame an initiator that waits for message 2 reads as such, it is ready and has sent message 3 exactly if the frame opens to a ratchet key and a KEM key, and has failed otherwise |
| `ChannelPhases.Message3Settles` | src/crypto/peer-channels.ts:172-184 | The same of a responder that waits for message 3, with something of a ciphertext's length |
| `ChannelPhases.Message1Settles` | src/crypto/peer-channels.ts:162-170 | A fresh responder answers exactly if the first 32 bytes are a public key, and has failed otherwise |
| `ChannelPhases.Message3Secret` | src/crypto/peer-channels.ts:176-183 | The KEM secret in a ready responder's root is the one in the ciphertext if and only if the ciphertext was made for the responder's own KEM key |
| `ChannelKeys.KeysAreFresh` | src/crypto/peer-channels.ts:83-170 | Over any calls and any frames: if no two draws of a client give the same thing, no two channels it holds share a ratchet, ephemeral or KEM key pair or an encapsulated secret, none uses one pair for two ends, and all were drawn in the run |
| `ChannelMessages.OpensWhatWasSealed` | src/crypto/peer-channels.ts:209-233 | What one client seals to all, each ready peer opens to exactly the same bytes if and only if the message is in reach of its ratchet, and to nothing otherwise |
| `ChannelMessages.SealsToEveryReadyPeer` | src/crypto/peer-channels.ts:209-221 | The payload has a slot for each ready peer and for no one else, each the next message of that peer's ratchet, and no other channel moves |
| `ChannelConversations.SealedIsOpened` | src/crypto/peer-channels.ts:209-233 | In every run of handshakes, removals, reloads, seals and openings: whenever a pair is ready on both sides and message 3 has been read, what either seals for all the other opens to the same bytes if and only if it is in reach |
| `ChannelConversations.ChannelsConverse` | src/crypto/peer-channels.ts:187-233 | In every such run the two ratchets of such a pair are the two ends of one conversation, begun when its initiator became ready |
| `ChannelConversations.MirrorsConverse` | src/crypto/peer-channels.ts:201-206 | Two channels that mirror each other hold the two ends of a conversation that has not begun |
| `ChannelMessages.NeverSilentlyOmits` | src/crypto/peer-channels.ts:215-218 | A ready channel without a ratchet makes the call throw instead of leaving its peer out |
| `ChannelMessages.OtherSessionFails` | src/crypto/peer-channels.ts:83-90 | A handshake carried into another session or peer pairing fails at message 2 and makes nobody ready |
| `PeerChannelsClass.PeerChannels.NewChannel` | src/crypto/peer-channels.ts:83-101 | The role follows the order of the ids, and both sides build one prologue |
| `PeerChannelsClass.PeerChannels.RemovePeer` | src/crypto/peer-channels.ts:235-237 | The channel is gone and no other is touched |
| `PeerChannelsClass.PeerChannels.EnsureChannel` | src/crypto/peer-channels.ts:103-115 | New map and sent frame are those of the specification |
| `PeerChannelsClass.PeerChannels.OnRestartRequest` | src/crypto/peer-channels.ts:120-125 | A restart is honoured only by an initiator that is not mid-handshake |
| `PeerChannelsClass.PeerChannels.OnSignal` | src/crypto/peer-channels.ts:127-185 | Every frame, also one whose payload does not decode, leads to the specification's map and answer |
| `PeerChannelsClass.PeerChannels.EncryptForAll` | src/crypto/peer-channels.ts:209-221 | The loop over the insertion-ordered map computes the specification's slots, or throws keeping the ratchets already moved |
| `PeerChannelsClass.PeerChannels.DecryptFrom` | src/crypto/peer-channels.ts:223-233 | Every failure is an absent result; a success commits the ratchet |
| `SendQueueProof.RateBound` | src/transport/send-queue.ts:98-137 | In any stretch of any run, 1000 times the sends is at most 1000 rate plus rate for every waking millisecond; paused time earns nothing |
| `SendQueueProof.BoundIsMet` | src/transport/send-queue.ts:108-137 | The bound is exact: for every rate a run puts twice the rate on the wire within one second |
| `SendQueueProof.NothingIsStranded` | src/transport/send-queue.ts:121-162 | After every run, an unpaused sender with something queued has a timer due within the time one token takes |
| `SendQueueProof.TimerCycleSends` | src/transport/send-queue.ts:130-136 | From the event that armed a timer to the end of its firing at least one item is sent |
| `SendQueueProof.FiringSends` | src/transport/send-queue.ts:121-136 | A firing itself sends something exactly when something is queued and a whole token is in hand |
| `SendQueueProof.FiringMaySendNothing` | src/transport/send-queue.ts:116-136 | A reachable state in which the due timer fires on a non-empty queue and sends nothing, because an enqueue just spent the token |
| `SendQueueProof.NoiseIsConserved` | src/transport/send-queue.ts:164-189 | Without `clear`, handshake frames sent and then queued are exactly those enqueued, in order, across every transient clear |
| `SendQueueProof.LaneIsFifo` | src/transport/send-queue.ts:38-67 | In any lane no event clears, what was sent and then what is queued is what was enqueued, in order |
| `SendQueueProof.LaneKeepsOrder` | src/transport/send-queue.ts:38-67 | With clears too, each lane's sent and queued items are a subsequence of what was enqueued |
| `SendQueueProof.EveryItemIsAccountedFor` | src/transport/send-queue.ts:116-189 | Every item is, exactly once, sent, queued, or thrown away by a clear |
| `SendQueueProof.LowestLaneFirst` | src/transport/send-queue.ts:45-50 | When an item goes out every lower lane has been drained first |
| `SendQueueProof.PausedSendsNothing` | src/transport/send-queue.ts:121-162 | In any run, from a pause up to the next resume nothing is sent, no timer is set, no token is earned or spent, and each lane holds what it held, less what a clear took, then what was enqueued, in order |
| `SendQueueProof.ClearedIsIdle` | src/transport/send-queue.ts:166-172 | In any run, from a clear up to the next enqueue nothing is queued or sent and no timer is pending or fires |
| `SendQueueProof.DrainCuts` | src/transport/send-queue.ts:124-129 | The sending loop takes as many items as there are whole tokens off the lanes laid end to end |
| `SendQueueProof.PumpPays` | src/transport/send-queue.ts:121-137 | A pump turns credit into sends at exactly a thousand a send |
| `SendQueueClass.PriorityQueue.Enqueue` | src/transport/send-queue.ts:41-43 | The item joins the end of its lane and no other lane changes |
| `SendQueueClass.PriorityQueue.Dequeue` | src/transport/send-queue.ts:45-50 | The loop takes the head of the lowest busy lane |
| `SendQueueClass.PriorityQueue.ClearExcept` | src/transport/send-queue.ts:62-66 | Every lane but the kept one is emptied |
| `SendQueueClass.PacedSender.Refill` | src/transport/send-queue.ts:108-114 | Tokens and refill time become those of the specification |
| `SendQueueClass.PacedSender.Pump` | src/transport/send-queue.ts:121-137 | The loop hands out the specification's items and arms its timer |
| `SendQueueClass.PriorityQueue.Size` | src/transport/send-queue.ts:52-56 | The loop adds up the lanes |
| `SendQueueClass.PriorityQueue.Clear` | src/transport/send-queue.ts:58-60 | Every lane is emptied |
| `SendQueueClass.PacedSender.Enqueue` | src/transport/send-queue.ts:116-119 | The item joins its lane and the queue is pumped |
| `SendQueueClass.PacedSender.OnTimer` | src/transport/send-queue.ts:132-135 | The timer is gone before the pump, so the pump may set it anew |
| `SendQueueClass.PacedSender.Pause` | src/transport/send-queue.ts:146-152 | Nothing is lost and no timer is left |
| `SendQueueClass.PacedSender.Clear` | src/transport/send-queue.ts:166-172 | Everything queued is dropped and no timer is left |
| `SendQueueClass.PacedSender.Resume` | src/transport/send-queue.ts:154-162 | A no-op unless paused; otherwise the clock restarts and the queue is pumped |
| `SendQueueClass.PacedSender.ClearTransient` | src/transport/send-queue.ts:179-189 | Only the handshake lane survives, the timer is dropped and set anew |
| `MailboxHistory.ReleaseExact` | src/peer-mailbox.ts:51-61 | Told from the calls alone: a release returns, in hold order, exactly the unexpired envelopes in the mailbox still owed to the peer |
| `MailboxHistory.HandedAtMostOnce` | src/peer-mailbox.ts:51-61 | No hold is handed to the same peer twice |
| `MailboxHistory.NothingElseIsLost` | src/peer-mailbox.ts:37-68 | A hold that still owes someone is in the mailbox unless it expired or was evicted as the oldest of two hundred |
| `MailboxHistory.EntriesAreTruthful` | src/peer-mailbox.ts:37-61 | Every entry is the last hold under its nonce and lists exactly whom it still owes |
| `MailboxHistory.RecipientsExactly` | src/peer-mailbox.ts:20-47 | Every entry holds a message or a file with a slot table, and is for exactly those of the table who were not present at its last hold and have not been released since |
| `MailboxHistory.HoldOrder` | src/peer-mailbox.ts:41-46 | Entries stand in the order in which the calls brought them in, a nonce held again while live keeping its place |
| `MailboxHistory.SizeBounded` | src/peer-mailbox.ts:42-46 | Never more than two hundred entries |
| `MailboxHistory.NeverForNobody` | src/peer-mailbox.ts:57-58 | Every entry has a recipient left |
| `OrderedMap.IterationSifts` | src/peer-mailbox.ts:54-67 | Deleting and rewriting entries of the map under iteration skips none and visits none twice |
| `PeerMailboxClass.PeerMailbox.Prune` | src/peer-mailbox.ts:63-68 | Exactly the entries older than five minutes go |
| `PeerMailboxClass.PeerMailbox.Hold` | src/peer-mailbox.ts:37-47 | The map becomes the specification's: pruned, overwritten or appended, cut to the cap |
| `PeerMailboxClass.PeerMailbox.Release` | src/peer-mailbox.ts:51-61 | The loop that deletes from the map it iterates over gives the specification's entries and envelopes |
| `ReplayCache.ReplayIsCaught` | src/backend/application/use-cases/relay-message.use-case.ts:64-85 | Two acceptances of one key are more than 120 s apart or have at least a cacheful (50000) of other acceptances between them |
| `ReplayCache.NeverAboveCap` | src/backend/application/use-cases/relay-message.use-case.ts:68-84 | The cache never holds more than its cap |
| `ReplayCache.CacheRemembers` | src/backend/application/use-cases/relay-message.use-case.ts:64-85 | After every run each entry is its key's last acceptance, in order, and every forgotten key is old or was followed by a cacheful |
| `ReplayCache.EnvelopeKeyInjective` | src/backend/application/use-cases/relay-message.use-case.ts:65 | Envelopes of different session, sender or nonce never share a key |
| `Membership.ProofServesOnce` | src/backend/adapters/transport/ws.transport.ts:54-63 | A join proof whose timestamp is a number passes its checks and the nonce guard twice, under whatever tokens, only if a cacheful of other proofs was accepted in between |
| `Membership.ServesOnceExactly` | src/shared/membership.ts:184 | For every token and proof that match, the guard makes the proof single-use if and only if its timestamp is a number |
| `Membership.AcceptsExactly` | src/shared/membership.ts:171-204 | A join is accepted exactly if version, session, expiry, both bindings, both keys, the minute of tolerance and both signatures are right |
| `CanonicalText.BindingExactly` | src/shared/membership.ts:61-68 | The text that is signed stands for its own fields alone if and only if none of them holds a line break |
| `CanonicalText.ClaimsAreBound` | src/shared/membership.ts:61-64 | If no field the host signed holds a line break, its signature is good for no other claims, whatever is put in them |
| `CanonicalText.ProofIsBound` | src/shared/membership.ts:66-68 | The same of the member's proof: it is good for no other session, peer, time or nonce |
| `Membership.ProofServesTwice` | src/shared/membership.ts:184 | A proof without a numeric timestamp is let in a second time after the sweep, with no other proof in between |
| `ReplayCacheClass.RelayMessage.IsReplay` | src/backend/application/use-cases/relay-message.use-case.ts:64-71 | Answer and cache are those of the specification |
| `ReplayCacheClass.RelayMessage.PruneNonces` | src/backend/application/use-cases/relay-message.use-case.ts:73-85 | Both loops leave the specification's cache |
| `ReplayCacheClass.RelayMessage.Execute` | src/backend/application/use-cases/relay-message.use-case.ts:17-62 | Cache and outcome are those of the specification, and the session's activity time moves exactly when the envelope is relayed |
| `RelayMessage.RefusedExactly` | src/backend/application/use-cases/relay-message.use-case.ts:18-45 | Each refusal is given exactly when its reason is the first to apply, and a relayed envelope goes to exactly the other members that are reachable |
| `RelayMessage.RefusedUnread` | src/backend/application/use-cases/relay-message.use-case.ts:17-28 | An unknown session comes before an envelope unfit to be relayed, and neither spends the nonce |
| `RelayMessage.ResendIsDuplicate` | src/backend/application/use-cases/relay-message.use-case.ts:30-45 | Sent again, an envelope that was not a duplicate the first time is refused as one if and only if its key is still in the cache, where it is for two minutes unless a cacheful of others was accepted since |
| `RelayMessage.RefusedThenDuplicate` | src/backend/application/use-cases/relay-message.use-case.ts:30-45 | An envelope refused because nobody was reachable is refused again, as a duplicate, once everybody is |
| `ReplayCacheClass.ProofGuard.ConsumeProofNonce` | src/backend/adapters/transport/ws.transport.ts:54-63 | Answer and cache are those of the specification |
| `ReplayCacheClass.ProofGuard.PruneStale` | src/backend/adapters/transport/ws.transport.ts:47-49 | The sweep drops exactly the nonces older than two minutes |
| `RateLimit.SweepingChangesNothing` | src/backend/adapters/http/rate-limit.middleware.ts:10-35 | On every run and any schedule of sweeps, each decision is that of a limiter that never sweeps |
| `RateLimit.AtMostTwiceTheLimit` | src/backend/adapters/http/rate-limit.middleware.ts:16-33 | Any stretch no longer than the window lets at most twice the maximum of one key through |
| `RateLimit.WithinTheLimitPasses` | src/backend/adapters/http/rate-limit.middleware.ts:16-33 | A request is let through whenever its key has asked at most the maximum number of times in the window that ends with it, under any schedule of sweeps |
| `RateLimit.TransportLimits` | src/backend/adapters/transport/ws.transport.ts:117-152 | The same for the connection and frame limits: at most 100 connections of one address in a minute, 20 frames of one peer in a second |
| `RateLimitClass.RateLimiter.RateLimit` | src/backend/adapters/http/rate-limit.middleware.ts:10-35 | Decision and counters of one request, with the sweep when the map is large |
| `RateLimitClass.RateLimiter.Count` | src/backend/adapters/transport/ws.transport.ts:117-135 | The counter is bumped or restarted, and the request passes while the count is within the maximum |
| `RateLimitClass.RateLimiter.DropOlder` | src/backend/adapters/transport/ws.transport.ts:38-43 | The sweep drops exactly the counters whose window began longer ago than the threshold |
| `SessionStore.StoreSound` | src/backend/adapters/store/in-memory-session.store.ts:5-61 | Over every run: entries are keyed by their own id, the number of sessions and every lifetime are bounded, and an object deleted at any point is served at no later one |
| `SessionStore.DeletedStaysDeleted` | src/backend/adapters/store/in-memory-session.store.ts:15-20 | From any sound state: a deleted object is never found again, whatever is saved later |
| `SessionStore.IdReusableAtOnce` | src/backend/adapters/store/in-memory-session.store.ts:26-30 | Destroying a session frees its id: the next create under it gives a new object |
| `SessionStore.SweepTakesTheOverdue` | src/backend/adapters/store/in-memory-session.store.ts:43-60 | A sweep takes out and reports exactly the sessions past their expiry, inactive for over half an hour or empty for over five minutes, each reason alone sufficing |
| `SessionStore.ServedExactly` | src/backend/adapters/store/in-memory-session.store.ts:22-60 | Over every run an id goes on being served by the same object if and only if it is nowhere destroyed and no sweep comes when its time is up |
| `SessionStore.RefreshExactly` | server.ts:180-192 | A refresh of a session with participants is activity and moves the expiry to 15 minutes from now or a day after creation, whichever is sooner: it brings the expiry nearer exactly when over 15 minutes were left |
| `SessionStore.CreatedExactly` | src/backend/application/use-cases/create-session.use-case.ts:44-79 | A new session that nobody touches lasts until the time granted to it is over, and no longer than half an hour; its host is its one member |
| `SessionStore.TouchExactly` | src/backend/adapters/store/in-memory-session.store.ts:36-41 | A touch is activity and nothing else: the session then has half an hour, if it neither expires nor is empty for five minutes before |
| `SessionStore.CreateIsIdempotent` | src/backend/application/use-cases/create-session.use-case.ts:32-40 | A second create for an id gives the same session and says it was there |
| `SessionStore.StepKeeps` | src/backend/application/use-cases/create-session.use-case.ts:35-79 | Every use case keeps the store's invariant |
| `Sessions.ClampPeers` | src/backend/application/use-cases/create-session.use-case.ts:87-90 | A request from 2 to 10 is granted, a smaller one raised to 2, a larger one cut to 10, and none or zero means 10 |
| `Sessions.Ttl` | src/backend/application/use-cases/create-session.use-case.ts:44-48 | A request of up to a day is granted, a longer one is cut to a day, a missing or zero one takes the default |
| `SessionStoreClass.InMemorySessionStore.Save` | src/backend/adapters/store/in-memory-session.store.ts:17-20 | A deleted object is not taken back |
| `SessionStoreClass.InMemorySessionStore.Get` | src/backend/adapters/store/in-memory-session.store.ts:22-24 | The object stored under the id, or none |
| `SessionStoreClass.InMemorySessionStore.Delete` | src/backend/adapters/store/in-memory-session.store.ts:26-30 | The entry goes and its object is remembered as deleted |
| `SessionStoreClass.InMemorySessionStore.Touch` | src/backend/adapters/store/in-memory-session.store.ts:36-41 | Only the activity time of the session found changes |
| `SessionStoreClass.InMemorySessionStore.Cleanup` | src/backend/adapters/store/in-memory-session.store.ts:43-60 | The loop over the live map removes, remembers and returns the overdue sessions, in order |
| `SessionStoreClass.CreateSession.Execute` | src/backend/application/use-cases/create-session.use-case.ts:32-84 | Existing, refused at capacity, or a new object with the clamped size and capped lifetime, saved under its id |
| `SessionStoreClass.Refresh` | server.ts:180-196 | Refused without participants; otherwise the expiry moves, never past a day after creation |
| `AdmissionProof.SessionSound` | src/backend/adapters/transport/ws.transport.ts:78-97 | Over every run of joins, accepts, rejects, kicks, closes and teardown: the host among the peers, at most ten waiting, emptiness marked exactly at count zero, and from the first admission the count is exactly the connected admitted peers |
| `AdmissionProof.SweepSparesThePresent` | src/backend/adapters/store/in-memory-session.store.ts:51 | The emptiness sweep never takes a session in which an admitted peer has its socket registered |
| `AdmissionProof.JoinFullExactly` | src/backend/adapters/transport/ws.transport.ts:244-248 | A join is told the session is full exactly when the reclaimed session has no free slot and the name is neither a member's nor inherited by every object: the admission behind the check never fails |
| `AdmissionProof.CapacityExactly` | src/backend/adapters/transport/ws.transport.ts:157-164 | Over a run from the creation of a session the members never outnumber the slots, if and only if no event admits an inherited name into a full session |
| `AdmissionProof.StepFits` | src/backend/adapters/transport/ws.transport.ts:157-164 | The same for one step from any sound state within capacity |
| `AdmissionProof.StrangersOverfill` | src/backend/adapters/transport/ws.transport.ts:285-304 | A run from the creation of a session for two: two strangers that present only the names toString and valueOf leave it with three members |
| `AdmissionProof.NamesThatPass` | src/shared/contracts/v1/schemas.ts:29-34 | Of the names every object inherits, all but two are valid peer ids |
| `AdmissionAuthority.AuthorityExactly` | src/backend/adapters/transport/ws.transport.ts:252-348 | Over a run everyone who becomes a member shows the recovery token or a valid membership, or is a waiting guest the host names, if and only if no event admits an inherited name that is no member's |
| `AdmissionAuthority.EntryExactly` | src/backend/adapters/transport/ws.transport.ts:252-348 | The same for one step from any sound state |
| `AdmissionAuthority.StepFollows` | src/backend/adapters/transport/ws.transport.ts:157-171 | Which ids may become members, lose their slot or have their token changed in a step: newcomers have a credential, the host's word or an inherited name; a slot goes to the grace period, a kick or the host's replacement; nobody else's token changes. It says nothing of who holds a member's identity |
| `AdmissionAuthority.JoinedExactly` | src/backend/adapters/transport/ws.transport.ts:244-348 | A join is answered "joined" if and only if the reclaimed session has room for the name and the frame has the recovery token, or names a member other than the host with its token or while no open socket holds the name, or names nobody's and carries a valid membership; the asking socket then holds the identity and the reply carries the member's own token |
| `AdmissionAuthority.SocketsMoveByJoin` | src/backend/adapters/transport/ws.transport.ts:99-102 | A name's registered socket changes only to that of a join answered "joined", or of a guest who is no member and waits |
| `AdmissionAuthority.TakeoverExactly` | src/backend/adapters/transport/ws.transport.ts:285-312 | A stranger that knows only a member's public id is made that member and given its token exactly when no open socket holds the id |
| `AdmissionAuthority.StrangerTakesOver` | src/backend/adapters/transport/ws.transport.ts:285-312 | A run from the creation of a session in which this happens: a member comes in and its socket closes, and a stranger gets its identity and token |
| `AdmissionAuthority.HostNeedsToken` | src/backend/adapters/transport/ws.transport.ts:252-263 | Host authority moves only to a peer that shows the recovery token |
| `AdmissionPresence.MembersBackedExactly` | src/backend/adapters/transport/ws.transport.ts:386-434 | Over a run every member counted as present has a registered socket, if and only if the host never rejects a member that has one, nor accepts an inherited name of which only the id is left in the presence set |
| `AdmissionPresence.StepBacked` | src/backend/adapters/transport/ws.transport.ts:386-434 | The same for one step from any sound state |
| `AdmissionPresence.OrphanStaysExactly` | src/backend/adapters/transport/ws.transport.ts:521-527 | A present member without a socket stays one throughout a run if and only if no event of it is a join under its name (with the recovery token if it is the host), the host's role taken from it, a kick by the host of a group, or the end of the session |
| `AdmissionPresence.StepOrphan` | src/backend/adapters/transport/ws.transport.ts:436-460 | The same for one step from any sound state |
| `AdmissionPresence.OrphanKeepsOpen` | src/backend/adapters/store/in-memory-session.store.ts:51 | Until one of those events the session is never marked empty and the emptiness sweep never takes it, whoever else has left |
| `AdmissionPresence.GuestOrphaned` | src/backend/adapters/transport/ws.transport.ts:413-434 | A run from the creation of a session that leaves such a member: a guest asks to join, joins by its membership, and the host turns the old request down |
| `AdmissionPresence.PresenceMatchesSockets` | src/backend/adapters/transport/ws.transport.ts:413-434 | Over a run the presence set is the set of registered sockets, if and only if no rejection takes a registered socket away |
| `AdmissionMembers.StepMembers` | src/backend/adapters/transport/ws.transport.ts:157-460 | After any event, for every id and told from the state before it: whether it is a member and under which record (times and token), and since when it waits |
| `AdmissionMembers.StepSockets` | src/backend/adapters/transport/ws.transport.ts:99-102 | The same of the presence set and of the registered socket |
| `AdmissionMembers.StepSession` | src/backend/adapters/transport/ws.transport.ts:157-171 | The same of the host, the group mark, the first admission, the count and since when the session is empty |
| `AdmissionMembers.JoinAnswers` | src/backend/adapters/transport/ws.transport.ts:223-384 | Which of the ten answers a join gets, told from the state before it |
| `AdmissionMembers.AcceptAnswers` | src/backend/adapters/transport/ws.transport.ts:386-411 | An acceptance is answered with the guest's token, or that there is no room, or not at all |
| `AdmissionMembers.KickedStaysOutExactly` | src/backend/adapters/transport/ws.transport.ts:436-460 | A member the host of a group kicks is at once no member, not listed and without a socket; and is no member throughout a run that follows if and only if nowhere in it does the host accept a new request of it, or it show the recovery token or a membership |
| `AdmissionMembers.KickedMustProve` | src/backend/adapters/transport/ws.transport.ts:244-348 | Right after the kick a join under its name is answered "joined" exactly if there is room and it shows the recovery token or a membership; its old token is of no use |
| `AdmissionMembers.GraceExactly` | src/backend/adapters/transport/ws.transport.ts:521-541 | When the socket of a member other than the host closes, its slot and token stay as they are over a run if and only if no event is a join under its name, anything that looks for lapsed members 30 seconds on, an acceptance of its name, a kick or the end of the session |
| `AdmissionMembers.GraceEnds` | src/backend/core/policies/presence.policy.ts:8-25 | A join under its name within 30 seconds is answered with its old token; from then on anyone else's join costs it the slot, and not before |
| `AdmissionMembers.WaitsExactly` | src/backend/adapters/transport/ws.transport.ts:386-434 | A guest waits, since when it first asked, until exactly an acceptance for which there is room, a rejection by the host, or the close of its own socket |
| `WsTransportClass.StalePeerIds` | src/backend/core/policies/presence.policy.ts:8-25 | The loop lists, once each, every peer but the host that is neither connected nor within its grace period |
| `WsTransportClass.WsTransport.SyncPresence` | src/backend/adapters/transport/ws.transport.ts:78-84 | Count and emptiness mark become those of the specification; no other session is touched |
| `WsTransportClass.WsTransport.ReclaimStaleSlots` | src/backend/adapters/transport/ws.transport.ts:86-91 | Exactly the stale slots are gone |
| `WsTransportClass.WsTransport.RegisterConnection` | src/backend/adapters/transport/ws.transport.ts:99-102 | The socket is registered and its peer listed |
| `WsTransportClass.WsTransport.ConnectedPeers` | src/backend/adapters/transport/ws.transport.ts:65-72 | The presence set of the session, created empty if there is none |
| `WsTransportClass.WsTransport.AdmitPeer` | src/backend/adapters/transport/ws.transport.ts:157-171 | State and token are those of the specification; full sessions give none |
| `WsTransportClass.WsTransport.Join` | src/backend/adapters/transport/ws.transport.ts:223-384 | Every branch of a join ends in the specification's state and reply |
| `WsTransportClass.WsTransport.AcceptJoin` | src/backend/adapters/transport/ws.transport.ts:386-411 | State and reply are those of the specification |
| `WsTransportClass.WsTransport.RejectJoin` | src/backend/adapters/transport/ws.transport.ts:413-434 | The guest leaves the queue and its socket the connections, and nothing else |
| `WsTransportClass.WsTransport.KickPeer` | src/backend/adapters/transport/ws.transport.ts:436-460 | Only the host of a group removes another member |
| `WsTransportClass.WsTransport.HandleClose` | src/backend/adapters/transport/ws.transport.ts:521-553 | Only the socket that owns the registration tears it down |
| `WsTransportClass.WsTransport.DisconnectSession` | src/backend/adapters/transport/ws.transport.ts:591-602 | Every listed socket of the session, and no other, is dropped |

## Left out

Idealisations of what is modelled:

- X25519, ChaCha20-Poly1305 (RFC 8439), HKDF (RFC 5869), SHA-256, ML-KEM (FIPS 203), Ed25519, base64, UTF-8 and JSON are ideal or injective. Streamed files take the AEAD as an argument that opens what it sealed.
- FileStreamProof.FeedHolds: and `FileStreamProof.ResultIsWholeSource` with it, assumes of each offered frame that it is no forgery under the transfer's key, which is what the AEAD is for; frames may otherwise be anything.
- RatchetTheorems.OpensIffSentAndWithinReach: and the other results about conversations let the adversary forge any frame but a box under a key derived from the session root, which it does not hold.
- NoiseClass.HandshakeState.MixDH: bytes that are no public key make the symbolic DH throw, and with it the handshake or the start of a ratchet; the real X25519 computes a secret nobody else has.
- Ratchet headers with fractional or missing numbers are not modelled; a slot or a handshake frame that does not decode is.
- Channels are values in the manager's map, so aliasing of one channel object is not captured. On values the order in which `encryptForAll` meets them is any listing of the map's keys; the class takes its map's own.
- The safety number is the handshake hash it is computed from; its thirty digits are not modelled.
- ChannelRecovery.ConvergesExactly: says nothing of a run with a reload or a removal in it; such a run is one that leads up to its starting state. `ChannelNetwork.Agreement` covers them.
- SafetyNumbers.SafetyNumbersDecide: asks that the ephemeral keys of the two channels differ, as independently drawn ones do, and is stated of the handshake, before the ratchets move on.
- The send callback of the pacer is the list of items returned by the call; a callback that calls back into the pacer is not modelled. The rate is a positive integer, and clocks never run backwards.
- Envelopes in the mailbox carry the recipient ids their payload parses to; parsing is not modelled.
- Mailbox entries are values in the map, since nothing else can reach them.
- CanonicalText.ClaimsAreBound: and `CanonicalText.ProofIsBound` are about the signed text, of fields as they are rendered; that a signature is good for its text alone is the ideal signature.
- Signature checks of a membership join are arguments of `Membership.VerifyMembership`; tokens and keys are not decoded. An expiry or timestamp that is no number is absent there; a nonce is the text it is rendered as.
- ChannelConversations.ChannelsConverse: asks that the two ratchet keys of a pair differ, that key pairs drawn later are new to its conversation, and that nothing opened in it is forged under its root.
- Ids drawn for sessions are assumed new, and so are tokens never empty. Two creates that interleave between their awaits are not modelled; each use case is one step.
- Sessions are keyed in the transport's maps by the pair of session and peer id, where the program joins the two with a colon that neither may contain.
- Peers and waiting guests of a session are maps without an order. Lookups find inherited names as the program's do; writing to an inherited function object, as a close may, changes nothing that is read.
- A socket that joins more than once under different identities is not followed; accept, reject and kick take the calling identity as an argument.

Parts of the program that are not modelled:

- `classifySignalPriority`, `recipientsOf`'s parsing, fingerprints, `allReady`: small pure functions.
- File names, MIME types, progress callbacks, `Blob` handling and `decodeFileStreamInit`.
- The per-socket frame counter, origin checks, join timeouts, backpressure, logging and timing jitter of the transport.
- HTTP routing except the refresh arithmetic; React hooks and components, `useRelay`, `useCall`, WebRTC, the outbox store, contact and identity stores, search, and command-line parsing.
- The older copy of the cryptography under `packages/cli`.
