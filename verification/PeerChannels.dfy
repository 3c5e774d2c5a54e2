/**
 The per-peer channels of one client: who starts a handshake, what each frame
 does to a channel, when a channel is ready, and how messages are sealed to and
 opened from peers. The random draws of a call are its last argument.
 */
module PeerChannels {
  import opened Common
  import opened Symbolic
  import opened Noise
  import DR = DoubleRatchet
  import Padding = MessagePadding
  import Pro = Prologue

  /** Peer and session ids, as the bytes of their text. */
  type PeerId = Bytes

  /** String order: decides which of two peers initiates. */
  predicate Less(a: PeerId, b: PeerId) {
    b != [] && (a == [] || a[0] < b[0] || (a[0] == b[0] && Less(a[1..], b[1..])))
  }

  /** Step 0 asks for a restart; steps 1 to 3 carry the Noise messages. */
  datatype NoiseFrame = NoiseFrame(to: PeerId, step: nat, data: Data)

  datatype Phase = Handshaking | Ready | Failed

  datatype Channel = Channel(
    initiator: bool, phase: Phase, hs: Hs, ratchet: Option<DR.State>, safetyNumber: Option<Digest>,
    remoteStatic: Option<Data>, drKey: KeyId, remoteDR: Option<Data>, kem: Option<nat>, pqSecret: Option<Secret>)

  datatype Manager = Manager(selfId: PeerId, sessionId: PeerId, staticKey: KeyId, channels: map<PeerId, Channel>)

  /** Fresh randomness: a ratchet key pair, an ephemeral key pair, a KEM key pair, an encapsulated secret. */
  datatype Draw = Draw(dr: KeyId, e: KeyId, kem: nat, secret: nat)

  function PrologueOf(m: Manager, peer: PeerId): Data {
    var (i, r) := if Less(m.selfId, peer) then (m.selfId, peer) else (peer, m.selfId);
    [Text(Pro.BuildPrologue(m.sessionId, i, r))]
  }

  function NewChannel(m: Manager, peer: PeerId, d: Draw): Channel {
    var initiator := Less(m.selfId, peer);
    Channel(initiator, Handshaking, NewHs(initiator, m.staticKey, PrologueOf(m, peer)),
            None, None, None, d.dr, None, None, None)
  }

  function SetChannel(m: Manager, peer: PeerId, c: Channel): Manager {
    m.(channels := m.channels[peer := c])
  }

  /** The manager after the call, and the frame it sends to `peer`, if any. */
  function EnsureChannel(m: Manager, peer: PeerId, d: Draw): (Manager, Option<NoiseFrame>) {
    if peer == m.selfId || peer in m.channels then (m, None)
    else
      var c := NewChannel(m, peer, d);
      if c.initiator then
        var (hs, msg) := WriteMessage(c.hs, [], d.e);
        (SetChannel(m, peer, c.(hs := hs)), if msg.None? then None else Some(NoiseFrame(peer, 1, msg.value)))
      else (SetChannel(m, peer, c), Some(NoiseFrame(peer, 0, [])))
  }

  function RemovePeer(m: Manager, peer: PeerId): Manager {
    m.(channels := m.channels - {peer})
  }

  function OnRestartRequest(m: Manager, peer: PeerId, d: Draw): (Manager, Option<NoiseFrame>) {
    if !Less(m.selfId, peer) then (m, None)
    else if peer in m.channels && m.channels[peer].phase == Handshaking then (m, None)
    else EnsureChannel(RemovePeer(m, peer), peer, d)
  }

  // ----- payloads of messages 2 and 3 ----------------------------------------------------

  const DR_KEY_BYTES := 32

  /** The DR key and the KEM blob behind it; too short a payload throws. */
  function SplitPayload(payload: Data): Option<(Data, Data)> {
    if Len(payload) <= DR_KEY_BYTES then None else Some(Slice(payload, DR_KEY_BYTES))
  }

  /** The ciphertext and the secret in it; a blob that is no public key throws. */
  function Encapsulate(blob: Data, secret: nat): Option<(Data, Secret)> {
    if Len(blob) != KEM_PUBLIC_KEY_BYTES || |blob| != 1 || !blob[0].KemPub? then None
    else Some(([KemCt(blob[0].kem, Seed(secret))], Seed(secret)))
  }

  /** Decapsulation never says that a ciphertext is wrong, only that its length is. */
  function Decapsulate(kem: nat, blob: Data): Option<Secret> {
    if Len(blob) != KEM_CIPHERTEXT_BYTES then None
    else if |blob| == 1 && blob[0].KemCt? && blob[0].to == kem then Some(blob[0].secret)
    else Some(Rejection(kem))
  }

  // ----- frames --------------------------------------------------------------------------

  /** The session root comes from both secrets, never from one. Throws are latched as `Failed`. */
  function Finalize(c: Channel): Channel {
    if c.hs.pair.None? then c
    else
      var c1 := c.(safetyNumber := Some(c.hs.sym.h), remoteStatic := c.hs.rs);
      if c.remoteDR.None? || c.pqSecret.None? then c1.(phase := Failed)
      else if |c.remoteDR.value| != 1 || !c.remoteDR.value[0].PubKey? then c1.(phase := Failed)
      else
        var root := Hybrid(c.hs.sym.ck, c.pqSecret.value);
        var remote := c.remoteDR.value[0].id;
        c1.(phase := Ready,
            ratchet := Some(if c.initiator then DR.InitAlice(root, c.drKey, remote) else DR.InitBob(root, c.drKey, remote)))
  }

  function OnStep2(c: Channel, peer: PeerId, data: Data, d: Draw): (Channel, Option<NoiseFrame>) {
    var (hs1, payload) := ReadMessage(c.hs, data);
    var c1 := c.(hs := hs1);
    if payload.None? || SplitPayload(payload.value).None? then (c1.(phase := Failed), None)
    else
      var (drKey, blob) := SplitPayload(payload.value).value;
      var c2 := c1.(remoteDR := Some(drKey));
      match Encapsulate(blob, d.secret)
      case None => (c2.(phase := Failed), None)
      case Some((ct, secret)) =>
        var (hs2, msg) := WriteMessage(hs1, [PubKey(c.drKey)] + ct, d.e);
        var c3 := c2.(pqSecret := Some(secret), hs := hs2);
        if msg.None? then (c3.(phase := Failed), None)
        else (Finalize(c3), Some(NoiseFrame(peer, 3, msg.value)))
  }

  function OnStep1(c: Channel, peer: PeerId, data: Data, d: Draw): (Channel, Option<NoiseFrame>) {
    var (hs1, payload) := ReadMessage(c.hs, data);
    if payload.None? then (c.(hs := hs1, phase := Failed), None)
    else
      var (hs2, msg) := WriteMessage(hs1, [PubKey(c.drKey), KemPub(d.kem)], d.e);
      var c2 := c.(hs := hs2, kem := Some(d.kem));
      if msg.None? then (c2.(phase := Failed), None) else (c2, Some(NoiseFrame(peer, 2, msg.value)))
  }

  function OnStep3(c: Channel, data: Data): Channel {
    var (hs1, payload) := ReadMessage(c.hs, data);
    var c1 := c.(hs := hs1);
    if payload.None? || SplitPayload(payload.value).None? then c1.(phase := Failed)
    else
      var (drKey, blob) := SplitPayload(payload.value).value;
      var c2 := c1.(remoteDR := Some(drKey));
      if c2.kem.None? then Finalize(c2)
      else
        match Decapsulate(c2.kem.value, blob)
        case None => c2.(phase := Failed)
        case Some(secret) => Finalize(c2.(pqSecret := Some(secret)))
  }

  function OnSignal(m: Manager, from: PeerId, f: NoiseFrame, d: Draw): (Manager, Option<NoiseFrame>) {
    if f.to != m.selfId then (m, None)
    else if f.step == 0 then OnRestartRequest(m, from, d)
    else
      var c := if from !in m.channels || f.step == 1 then NewChannel(m, from, d) else m.channels[from];
      var (c2, out) :=
        if c.initiator && f.step == 2 then OnStep2(c, from, f.data, d)
        else if !c.initiator && f.step == 1 then OnStep1(c, from, f.data, d)
        else if !c.initiator && f.step == 3 then (OnStep3(c, f.data), None)
        else (c, None);
      (SetChannel(m, from, c2), out)
  }

  /**
   A frame as it arrives: `None` is a payload whose base64 does not decode. It
   costs the channel, except in a restart request, whose payload nobody reads.
   */
  function OnFrame(m: Manager, from: PeerId, to: PeerId, step: nat, data: Option<Data>, d: Draw): (Manager, Option<NoiseFrame>) {
    if data.Some? then OnSignal(m, from, NoiseFrame(to, step, data.value), d)
    else if to != m.selfId then (m, None)
    else if step == 0 then OnRestartRequest(m, from, d)
    else
      var c := if from !in m.channels || step == 1 then NewChannel(m, from, d) else m.channels[from];
      (SetChannel(m, from, c.(phase := Failed)), None)
  }

  predicate IsReady(m: Manager, peer: PeerId) {
    peer in m.channels && m.channels[peer].phase == Ready && m.channels[peer].ratchet.Some?
  }

  // ----- messages ------------------------------------------------------------------------

  datatype ChannelError = NoRatchet

  type Payload = map<PeerId, DR.Slot>

  /** Seals to the ready ones among the peers of `order`, one after the other; a throw keeps the ratchets already moved. */
  function EncryptAlong(m: Manager, order: seq<PeerId>, padded: Bytes, kps: PeerId -> KeyId): (Manager, Result<Payload, ChannelError>)
  {
    if order == [] then (m, Ok(map[]))
    else
      var last := order[|order| - 1];
      var (m1, r) := EncryptAlong(m, order[..|order| - 1], padded, kps);
      if r.Err? || last !in m1.channels || m1.channels[last].phase != Ready then (m1, r)
      else if m1.channels[last].ratchet.None? then (m1, Err(NoRatchet))
      else
        var (st, slot) := DR.Encrypt(m1.channels[last].ratchet.value, padded, kps(last));
        (SetChannel(m1, last, m1.channels[last].(ratchet := Some(st))), Ok(r.value[last := slot]))
  }

  /** `order` is the iteration order of the channel map: each of its keys once. */
  ghost predicate Lists(order: seq<PeerId>, m: Manager) {
    Distinct(order) && forall p :: p in order <==> p in m.channels
  }

  function EncryptForAll(m: Manager, order: seq<PeerId>, plain: Bytes, kps: PeerId -> KeyId): (Manager, Result<Payload, ChannelError>)
    requires Lists(order, m)
  {
    EncryptAlong(m, order, Padding.Padded(plain), kps)
  }

  /** Every failure, from a missing slot to a bad pad, is `None`. */
  function DecryptFrom(m: Manager, from: PeerId, payload: Payload, kp: KeyId): (Manager, Option<Bytes>) {
    if !IsReady(m, from) || m.selfId !in payload then (m, None)
    else
      var c := m.channels[from];
      var (st, r) := DR.Decrypt(c.ratchet.value, payload[m.selfId], kp);
      var m2 := SetChannel(m, from, c.(ratchet := Some(st)));
      if r.Err? then (m2, None)
      else
        match Padding.Unpad(r.value)
        case Err(_) => (m2, None)
        case Ok(plain) => (m2, Some(plain))
  }
}
