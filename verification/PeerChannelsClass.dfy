/**
 The channel manager as an object whose insertion-ordered map of channels is
 updated in place.
 Every method does what the function of the same name in `PeerChannels` says.
 */
module PeerChannelsClass {
  import opened Common
  import opened OrderedMap
  import opened Symbolic
  import opened Noise
  import Spec = PeerChannels
  import DR = DoubleRatchet
  import Padding = MessagePadding

  class PeerChannels {
    const selfId: Spec.PeerId
    const sessionId: Spec.PeerId
    const staticKey: KeyId
    var channels: OMap<Spec.PeerId, Spec.Channel>

    ghost function View(): Spec.Manager
      reads this
    {
      Spec.Manager(selfId, sessionId, staticKey, channels.vals)
    }

    constructor (sessionId: Spec.PeerId, selfId: Spec.PeerId, identity: KeyId)
      ensures View() == Spec.Manager(selfId, sessionId, identity, map[]) && channels.Valid()
    {
      this.selfId, this.sessionId, this.staticKey, channels := selfId, sessionId, identity, OMap([], map[]);
    }

    method NewChannel(peer: Spec.PeerId, d: Spec.Draw) returns (c: Spec.Channel)
      ensures c == Spec.NewChannel(View(), peer, d)
    {
      var initiator := Spec.Less(selfId, peer);
      var prologue := if initiator then [Text(Spec.Pro.BuildPrologue(sessionId, selfId, peer))]
                      else [Text(Spec.Pro.BuildPrologue(sessionId, peer, selfId))];
      c := Spec.Channel(initiator, Spec.Handshaking, NewHs(initiator, staticKey, prologue),
                        None, None, None, d.dr, None, None, None);
    }

    /** `sent` is the frame handed to the peer's wire, if any. */
    method EnsureChannel(peer: Spec.PeerId, d: Spec.Draw) returns (sent: Option<Spec.NoiseFrame>)
      requires channels.Valid()
      modifies this
      ensures channels.Valid()
      ensures (View(), sent) == Spec.EnsureChannel(old(View()), peer, d)
    {
      if peer == selfId || peer in channels.vals { return None; }
      var c := NewChannel(peer, d);
      Put(peer, c);
      if c.initiator {
        var (hs, msg) := WriteMessage(c.hs, [], d.e);
        Put(peer, c.(hs := hs));
        assert channels.vals == old(channels.vals)[peer := c.(hs := hs)];
        return if msg.None? then None else Some(Spec.NoiseFrame(peer, 1, msg.value));
      }
      return Some(Spec.NoiseFrame(peer, 0, []));
    }

    method Put(peer: Spec.PeerId, c: Spec.Channel)
      requires channels.Valid()
      modifies this
      ensures channels.Valid() && channels == old(channels).Set(peer, c)
    {
      SetValid(channels, peer, c);
      channels := channels.Set(peer, c);
    }

    method RemovePeer(peer: Spec.PeerId)
      requires channels.Valid()
      modifies this
      ensures channels.Valid()
      ensures View() == Spec.RemovePeer(old(View()), peer)
    {
      DeleteValid(channels, peer);
      channels := channels.Delete(peer);
    }

    method OnRestartRequest(peer: Spec.PeerId, d: Spec.Draw) returns (sent: Option<Spec.NoiseFrame>)
      requires channels.Valid()
      modifies this
      ensures channels.Valid()
      ensures (View(), sent) == Spec.OnRestartRequest(old(View()), peer, d)
    {
      if !Spec.Less(selfId, peer) { return None; }
      if peer in channels.vals && channels.vals[peer].phase == Spec.Handshaking { return None; }
      RemovePeer(peer);
      sent := EnsureChannel(peer, d);
    }

    /** `data` is the decoded payload, `None` if it does not decode. */
    method OnSignal(from: Spec.PeerId, to: Spec.PeerId, step: nat, data: Option<Data>, d: Spec.Draw)
      returns (sent: Option<Spec.NoiseFrame>)
      requires channels.Valid()
      modifies this
      ensures channels.Valid()
      ensures (View(), sent) == Spec.OnFrame(old(View()), from, to, step, data, d)
    {
      if to != selfId { return None; }
      if step == 0 {
        sent := OnRestartRequest(from, d);
        return;
      }
      var c;
      if from !in channels.vals || step == 1 {
        c := NewChannel(from, d);
        Put(from, c);
      } else {
        c := channels.vals[from];
      }
      sent := None;
      if data.None? {
        c := c.(phase := Spec.Failed);
      } else if c.initiator && step == 2 {
        var (c2, out) := Spec.OnStep2(c, from, data.value, d);
        c, sent := c2, out;
      } else if !c.initiator && step == 1 {
        var (c2, out) := Spec.OnStep1(c, from, data.value, d);
        c, sent := c2, out;
      } else if !c.initiator && step == 3 {
        c := Spec.OnStep3(c, data.value);
      }
      Put(from, c);
      assert channels.vals == old(channels.vals)[from := c];
    }

    /** The channels are met in the order in which the map holds them. */
    method EncryptForAll(plain: Bytes, kps: Spec.PeerId -> KeyId) returns (r: Result<Spec.Payload, Spec.ChannelError>)
      requires channels.Valid()
      modifies this
      ensures channels.Valid() && channels.keys == old(channels.keys)
      ensures Spec.Lists(old(channels.keys), old(View()))
           && (View(), r) == Spec.EncryptForAll(old(View()), old(channels.keys), plain, kps)
    {
      var buffer := Padding.PadPlaintext(plain);
      var bytes := buffer[..];
      var c: Spec.Payload := map[];
      var order := channels.keys;
      for k := 0 to |order|
        invariant channels.Valid() && channels.keys == order == old(channels.keys)
        invariant bytes == Padding.Padded(plain)
        invariant (View(), Ok(c)) == Spec.EncryptAlong(old(View()), order[..k], bytes, kps)
      {
        var peer := order[k];
        assert order[..k + 1][..k] == order[..k];
        var channel := channels.vals[peer];
        if channel.phase == Spec.Ready {
          if channel.ratchet.None? {
            EncryptAlongStops(old(View()), order, k + 1, bytes, kps);
            return Err(Spec.NoRatchet);
          }
          var slot := Seal(peer, bytes, kps(peer));
          c := c[peer := slot];
        }
      }
      assert order[..|order|] == order;
      return Ok(c);
    }

    /** Seals with the channel's own ratchet, which moves on. */
    method Seal(peer: Spec.PeerId, bytes: Bytes, kp: KeyId) returns (slot: DR.Slot)
      requires channels.Valid() && peer in channels.vals && channels.vals[peer].ratchet.Some?
      modifies this
      ensures channels.Valid() && channels.keys == old(channels.keys)
      ensures var (st, sealed) := DR.Encrypt(old(channels.vals[peer].ratchet.value), bytes, kp);
              View() == Spec.SetChannel(old(View()), peer, old(channels.vals[peer]).(ratchet := Some(st))) && slot == sealed
    {
      var channel := channels.vals[peer];
      var (st, sealed) := DR.Encrypt(channel.ratchet.value, bytes, kp);
      Put(peer, channel.(ratchet := Some(st)));
      slot := sealed;
    }

    method DecryptFrom(from: Spec.PeerId, payload: Spec.Payload, kp: KeyId) returns (r: Option<Bytes>)
      requires channels.Valid()
      modifies this
      ensures channels.Valid()
      ensures (View(), r) == Spec.DecryptFrom(old(View()), from, payload, kp)
    {
      if from !in channels.vals || channels.vals[from].phase != Spec.Ready || channels.vals[from].ratchet.None? { return None; }
      if selfId !in payload { return None; }
      var (st, clear) := DR.Decrypt(channels.vals[from].ratchet.value, payload[selfId], kp);
      Put(from, channels.vals[from].(ratchet := Some(st)));
      if clear.Err? { return None; }
      var content := Padding.Unpad(clear.value);
      if content.Err? { return None; }
      return Some(content.value);
    }
  }

  /** Once the call has thrown, the peers after that one are not reached. */
  lemma {:induction false} EncryptAlongStops(m: Spec.Manager, order: seq<Spec.PeerId>, k: nat, padded: Bytes, kps: Spec.PeerId -> KeyId)
    requires k <= |order| && Spec.EncryptAlong(m, order[..k], padded, kps).1.Err?
    ensures Spec.EncryptAlong(m, order, padded, kps) == Spec.EncryptAlong(m, order[..k], padded, kps)
    decreases |order| - k
  {
    if k == |order| {
      assert order[..k] == order;
    } else {
      assert order[..k + 1][..k] == order[..k];
      EncryptAlongStops(m, order, k + 1, padded, kps);
    }
  }
}
