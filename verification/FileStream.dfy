/**
 Streamed files: a source is cut into fixed-size chunks, each sealed on its own
 under the chunk index as nonce with the frame header as associated data, and
 reassembled by a receiver that rejects the whole transfer on the first frame
 that is not the one it expects.
 */
module FileStream {
  import opened Common
  import opened ByteCodec

  const CHUNK: nat := 0x1_0000
  const MAGIC: nat := 0x5142_4653
  const VERSION: byte := 1
  const FILE_ID_BYTES := 16
  const HEADER_BYTES := 30
  const TAG_BYTES := 16

  /** ChaCha20-Poly1305 under one transfer's key: `seal(nonce, plain, ad)`, `unseal(nonce, box, ad)`. */
  datatype Aead = Aead(seal: (Bytes, Bytes, Bytes) -> Bytes, unseal: (Bytes, Bytes, Bytes) -> Option<Bytes>)

  /** A box is sixteen bytes longer than what is in it, and opens to exactly that. */
  ghost predicate Correct(a: Aead) {
    forall n, p, ad ::
      |a.seal(n, p, ad)| == |p| + TAG_BYTES && a.unseal(n, a.seal(n, p, ad), ad) == Some(p)
  }

  /** `encSize` is set for a password-locked file, whose streamed bytes are a ciphertext. */
  datatype Init = Init(fileId: Bytes, size: nat, chunks: nat, encSize: Option<nat>)

  /** A transfer: the bytes streamed, the id drawn for them, and the AEAD under the key drawn for them. */
  datatype Transfer = Transfer(source: Bytes, fileId: Bytes, aead: Aead)

  ghost predicate ValidTransfer(t: Transfer) {
    |t.fileId| == FILE_ID_BYTES && Correct(t.aead)
  }

  // ----- sending -------------------------------------------------------------------------

  /** ceil(size / CHUNK) */
  function ChunkCount(size: nat): nat { (size + (CHUNK - 1)) / CHUNK }

  /** `source.slice(start, end)` for chunk `i`. */
  function Chunk(source: Bytes, i: nat): Bytes
    requires i < ChunkCount(|source|)
  {
    source[i * CHUNK..Min(i * CHUNK + CHUNK, |source|)]
  }

  function Nonce(index: nat): (n: Bytes)
    ensures |n| == 12
  {
    Zeros(4) + LittleEndian(index, 8)
  }

  function Header(fileId: Bytes, index: nat, total: nat): Bytes {
    U32(MAGIC) + [VERSION] + [0] + U32(index) + U32(total) + fileId
  }

  /** `init` as the sender builds it; `lockedSize` is the original size of a password-locked file. */
  function MakeInit(t: Transfer, lockedSize: Option<nat>): Init {
    Init(t.fileId,
         if lockedSize.Some? then lockedSize.value else |t.source|,
         ChunkCount(|t.source|),
         if lockedSize.Some? then Some(|t.source|) else None)
  }

  function FrameAt(t: Transfer, i: nat): Bytes
    requires i < ChunkCount(|t.source|)
  {
    var header := Header(t.fileId, i, ChunkCount(|t.source|));
    header + t.aead.seal(Nonce(i), Chunk(t.source, i), header)
  }

  /** The first `n` frames of a transfer. */
  function Frames(t: Transfer, n: nat): (fs: seq<Bytes>)
    requires n <= ChunkCount(|t.source|)
    ensures |fs| == n
    ensures forall i :: 0 <= i < n ==> fs[i] == FrameAt(t, i)
  {
    seq(n, i requires 0 <= i < n => FrameAt(t, i))
  }

  /** The 30-byte header, written field by field into a fresh buffer. */
  method FrameHeader(fileId: Bytes, index: nat, total: nat) returns (h: array<byte>)
    requires |fileId| == FILE_ID_BYTES
    ensures fresh(h) && h[..] == Header(fileId, index, total)
  {
    h := NewBuffer(HEADER_BYTES);
    SetBytes(h, U32(MAGIC), 0);
    h[4] := VERSION;
    h[5] := 0;
    assert h[..6] == U32(MAGIC) + [VERSION] + [0];
    ghost var first := h[..6];
    SetBytes(h, U32(index), 6);
    assert h[..10] == first + U32(index);
    ghost var second := h[..10];
    SetBytes(h, U32(total), 10);
    assert h[..14] == second + U32(total);
    ghost var third := h[..14];
    SetBytes(h, fileId, 14);
    assert h[..] == third + fileId;
  }

  /** The frame generator, run to its end. */
  method SendAll(t: Transfer) returns (frames: seq<Bytes>)
    requires |t.fileId| == FILE_ID_BYTES
    ensures frames == Frames(t, ChunkCount(|t.source|))
  {
    var total := ChunkCount(|t.source|);
    frames := [];
    var index := 0;
    while index < total
      invariant 0 <= index <= total
      invariant frames == Frames(t, index)
    {
      var start := index * CHUNK;
      var end := Min(start + CHUNK, |t.source|);
      var plain := t.source[start..end];
      var h := FrameHeader(t.fileId, index, total);
      var sealed := t.aead.seal(Nonce(index), plain, h[..]);
      frames := frames + [h[..] + sealed];
      index := index + 1;
    }
  }

  // ----- receiving -----------------------------------------------------------------------

  datatype Parsed = Parsed(fileId: Bytes, index: nat, total: nat, header: Bytes, box: Bytes)

  function ParseFrame(f: Bytes): Option<Parsed> {
    if |f| < HEADER_BYTES + TAG_BYTES then None
    else if ReadU32(f, 0) != MAGIC || f[4] != VERSION then None
    else Some(Parsed(f[14..14 + FILE_ID_BYTES], ReadU32(f, 6), ReadU32(f, 10), f[..HEADER_BYTES], f[HEADER_BYTES..]))
  }

  datatype StreamError = Closed | Rejected | Incomplete

  datatype Receiver = Receiver(init: Init, parts: seq<Bytes>, next: nat, received: nat, failed: bool, complete: bool)

  function NewReceiver(init: Init): Receiver { Receiver(init, [], 0, 0, false, init.chunks == 0) }

  function ExpectedBytes(init: Init): nat {
    if init.encSize.Some? then init.encSize.value else init.size
  }

  /** The plaintext of `f` if `f` is the frame the receiver waits for. */
  function Accepts(r: Receiver, a: Aead, f: Bytes): Option<Bytes> {
    match ParseFrame(f)
    case None => None
    case Some(p) =>
      if p.total != r.init.chunks || p.index != r.next || p.fileId != r.init.fileId then None
      else a.unseal(Nonce(p.index), p.box, p.header)
  }

  function Accept(r: Receiver, a: Aead, f: Bytes): (Receiver, Option<StreamError>) {
    if r.failed || r.complete then (r, Some(Closed))
    else
      match Accepts(r, a, f)
      case None => (r.(failed := true, parts := []), Some(Rejected))
      case Some(plain) =>
        (r.(parts := r.parts + [plain], next := r.next + 1, received := r.received + |plain|,
            complete := r.next + 1 == r.init.chunks), None)
  }

  function Concat(parts: seq<Bytes>): Bytes {
    if parts == [] then [] else Concat(parts[..|parts| - 1]) + parts[|parts| - 1]
  }

  function ResultBytes(r: Receiver): Result<Bytes, StreamError> {
    if r.failed then Err(Rejected)
    else if !r.complete || r.received != ExpectedBytes(r.init) then Err(Incomplete)
    else Ok(Concat(r.parts))
  }

  /** Every frame of `fs` offered in turn; a frame that throws changes at most `failed` and `parts`. */
  function Feed(r: Receiver, a: Aead, fs: seq<Bytes>): Receiver {
    if fs == [] then r else Accept(Feed(r, a, fs[..|fs| - 1]), a, fs[|fs| - 1]).0
  }

  /** The receiving object, updated in place. */
  class FileStreamReceiver {
    const init: Init
    const aead: Aead
    var parts: seq<Bytes>
    var next: nat
    var received: nat
    var failed: bool
    var complete: bool

    ghost function View(): Receiver
      reads this
    {
      Receiver(init, parts, next, received, failed, complete)
    }

    constructor (init: Init, aead: Aead)
      ensures View() == NewReceiver(init) && this.aead == aead
    {
      this.init, this.aead := init, aead;
      parts, next, received, failed := [], 0, 0, false;
      complete := init.chunks == 0;
    }

    method Fail() returns (e: StreamError)
      modifies `failed, `parts
      ensures failed && parts == [] && e == Rejected
    {
      failed := true;
      parts := [];
      e := Rejected;
    }

    method AcceptFrame(frame: Bytes) returns (thrown: Option<StreamError>)
      modifies this
      ensures (View(), thrown) == Accept(old(View()), aead, frame)
    {
      if failed || complete { return Some(Closed); }
      var parsed := ParseFrame(frame);
      if parsed.None? || parsed.value.total != init.chunks || parsed.value.index != next
         || parsed.value.fileId != init.fileId
      {
        var e := Fail();
        return Some(e);
      }
      var plain := aead.unseal(Nonce(parsed.value.index), parsed.value.box, parsed.value.header);
      if plain.None? {
        var e := Fail();
        return Some(e);
      }
      parts := parts + [plain.value];
      next := next + 1;
      received := received + |plain.value|;
      if next == init.chunks { complete := true; }
      return None;
    }

    /** The parts copied one after the other into one buffer. */
    method Reassemble() returns (r: Result<Bytes, StreamError>)
      requires received == |Concat(parts)|
      ensures r == ResultBytes(View())
    {
      if failed { return Err(Rejected); }
      if !complete || received != ExpectedBytes(init) { return Err(Incomplete); }
      var out := NewBuffer(received);
      var off := 0;
      for i := 0 to |parts|
        invariant out.Length == received == |Concat(parts)|
        invariant off == |Concat(parts[..i])| <= received
        invariant out[..off] == Concat(parts[..i])
      {
        assert parts[..i + 1][..i] == parts[..i];
        ConcatPrefix(parts, i + 1);
        ghost var before := out[..off];
        SetBytes(out, parts[i], off);
        assert out[..off + |parts[i]|] == before + parts[i];
        off := off + |parts[i]|;
      }
      assert parts[..|parts|] == parts;
      assert out[..] == out[..off];
      return Ok(out[..]);
    }
  }

  lemma {:induction false} ConcatPrefix(parts: seq<Bytes>, n: nat)
    requires n <= |parts|
    ensures |Concat(parts[..n])| <= |Concat(parts)|
    decreases |parts| - n
  {
    if n == |parts| {
      assert parts[..n] == parts;
    } else {
      ConcatPrefix(parts, n + 1);
      assert parts[..n + 1][..n] == parts[..n];
    }
  }
}
