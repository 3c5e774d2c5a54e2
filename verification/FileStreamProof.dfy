/** Integrity of a streamed file: over any frames whatever, all of the source or nothing. */
module FileStreamProof {
  import opened Common
  import opened ByteCodec
  import opened FileStream

  // ----- the header on the wire ----------------------------------------------------------

  /** Parsing reads back what the header was built from, the counts modulo 2^32. */
  lemma ParseHeader(fileId: Bytes, index: nat, total: nat, box: Bytes)
    requires |fileId| == FILE_ID_BYTES && |box| >= TAG_BYTES
    ensures ParseFrame(Header(fileId, index, total) + box)
         == Some(Parsed(fileId, index % TWO32, total % TWO32, Header(fileId, index, total), box))
  {
    var h, f := Header(fileId, index, total), Header(fileId, index, total) + box;
    HeaderField(U32(MAGIC), MAGIC, [], [VERSION] + [0] + U32(index) + U32(total) + fileId + box, f);
    HeaderField(U32(index), index, U32(MAGIC) + [VERSION] + [0], U32(total) + fileId + box, f);
    HeaderField(U32(total), total, U32(MAGIC) + [VERSION] + [0] + U32(index), fileId + box, f);
    assert f[14..14 + FILE_ID_BYTES] == fileId;
    assert f[..HEADER_BYTES] == h && f[HEADER_BYTES..] == box;
  }

  lemma HeaderField(field: Bytes, v: nat, before: Bytes, after: Bytes, f: Bytes)
    requires field == U32(v) && f == before + field + after
    ensures ReadU32(f, |before|) == v % TWO32
  {
    U32RoundTrip(v);
    ReadU32In(before, field, after);
  }

  /** No nonce is used for two chunks of one transfer. */
  lemma NoncesDistinct(i: nat, j: nat)
    requires i < Pow256(8) && j < Pow256(8)
    ensures Nonce(i) == Nonce(j) <==> i == j
  {
    LittleEndianInjective(i, j, 8);
    assert Nonce(i)[4..] == LittleEndian(i, 8) && Nonce(j)[4..] == LittleEndian(j, 8);
  }

  // ----- any frames at all ---------------------------------------------------------------

  /**
   The adversary does not hold the transfer's key: whatever opens under it was
   sealed by the sender, as one of its chunks, under that chunk's header.
   */
  ghost predicate Unforged(t: Transfer, f: Bytes)
    requires ValidTransfer(t)
  {
    match ParseFrame(f)
    case None => true
    case Some(p) =>
      var plain := t.aead.unseal(Nonce(p.index), p.box, p.header);
      plain.Some? ==> exists i :: 0 <= i < ChunkCount(|t.source|) && SealedAs(t, p.header, plain.value, i)
  }

  ghost predicate SealedAs(t: Transfer, header: Bytes, plain: Bytes, i: nat)
    requires i < ChunkCount(|t.source|)
  {
    header == Header(t.fileId, i, ChunkCount(|t.source|)) && plain == Chunk(t.source, i)
  }

  /** The first `n` chunks of the source. */
  function Prefix(t: Transfer, n: nat): Bytes {
    t.source[..Min(n * CHUNK, |t.source|)]
  }

  /** Unless it has failed, the receiver holds exactly the first `next` chunks, from the first `next` frames. */
  ghost predicate Holds(t: Transfer, init: Init, r: Receiver, fs: seq<Bytes>) {
    && r.init == init
    && (r.failed ==> r.parts == [] && !r.complete)
    && (!r.failed ==>
          && r.next <= |fs| && r.next <= ChunkCount(|t.source|)
          && Concat(r.parts) == Prefix(t, r.next) && r.received == |Concat(r.parts)|
          && (r.complete <==> r.next == ChunkCount(|t.source|))
          && (!r.complete ==> r.next == |fs|)
          && (forall i :: 0 <= i < r.next ==>
                |fs[i]| >= HEADER_BYTES && fs[i][..HEADER_BYTES] == Header(t.fileId, i, ChunkCount(|t.source|))))
  }

  lemma NextChunk(t: Transfer, i: nat)
    requires i < ChunkCount(|t.source|)
    ensures Prefix(t, i) + Chunk(t.source, i) == Prefix(t, i + 1)
    ensures (i + 1 == ChunkCount(|t.source|)) ==> Prefix(t, i + 1) == t.source
  {
  }

  /** What the receiver takes as chunk `next` is chunk `next`. */
  lemma AcceptedIsNext(t: Transfer, locked: Option<nat>, r: Receiver, f: Bytes)
    requires ValidTransfer(t) && Unforged(t, f) && r.init == MakeInit(t, locked)
    requires Accepts(r, t.aead, f).Some?
    ensures r.next < ChunkCount(|t.source|) && Accepts(r, t.aead, f) == Some(Chunk(t.source, r.next))
    ensures |f| >= HEADER_BYTES && f[..HEADER_BYTES] == Header(t.fileId, r.next, ChunkCount(|t.source|))
  {
    var p, total := ParseFrame(f).value, ChunkCount(|t.source|);
    var i :| 0 <= i < total && SealedAs(t, p.header, Accepts(r, t.aead, f).value, i);
    HeaderTellsIndex(t, f, i);
    Unwrapped(i, r.next, total);
    assert i == r.next;
  }

  /** A count that survives its 32-bit field unchanged did not wrap, and neither does an index below it. */
  lemma Unwrapped(i: nat, index: nat, total: nat)
    requires i < total && total == total % TWO32 && index == i % TWO32
    ensures total < TWO32 && index == i
  {
  }

  /** A frame under the header of chunk `i` parses to `i`, modulo the width of the fields. */
  lemma HeaderTellsIndex(t: Transfer, f: Bytes, i: nat)
    requires |t.fileId| == FILE_ID_BYTES && i < ChunkCount(|t.source|)
    requires ParseFrame(f).Some? && ParseFrame(f).value.header == Header(t.fileId, i, ChunkCount(|t.source|))
    ensures ParseFrame(f).value.index == i % TWO32
    ensures ParseFrame(f).value.total == ChunkCount(|t.source|) % TWO32
    ensures |f| >= HEADER_BYTES && f[..HEADER_BYTES] == ParseFrame(f).value.header
  {
    var p := ParseFrame(f).value;
    assert f == p.header + p.box;
    ParseHeader(t.fileId, i, ChunkCount(|t.source|), p.box);
  }

  lemma AcceptHolds(t: Transfer, locked: Option<nat>, r: Receiver, fs: seq<Bytes>, f: Bytes)
    requires ValidTransfer(t) && Unforged(t, f)
    requires Holds(t, MakeInit(t, locked), r, fs)
    ensures Holds(t, MakeInit(t, locked), Accept(r, t.aead, f).0, fs + [f])
  {
    var r2 := Accept(r, t.aead, f).0;
    if !r.failed && !r.complete && Accepts(r, t.aead, f).Some? {
      AcceptedIsNext(t, locked, r, f);
      NextChunk(t, r.next);
      assert r2.parts[..|r2.parts| - 1] == r.parts;
      assert Concat(r2.parts) == Concat(r.parts) + Chunk(t.source, r.next);
    }
  }

  /**
   For any sequence of frames, reordered, dropped, duplicated, spliced or made
   up, an unfailed receiver holds a prefix of the source, chunk for chunk.
   */
  lemma {:induction false} FeedHolds(t: Transfer, locked: Option<nat>, fs: seq<Bytes>)
    requires ValidTransfer(t) && forall f :: f in fs ==> Unforged(t, f)
    ensures Holds(t, MakeInit(t, locked), Feed(NewReceiver(MakeInit(t, locked)), t.aead, fs), fs)
  {
    if fs == [] {
      assert Prefix(t, 0) == [];
    } else {
      var front, last := fs[..|fs| - 1], fs[|fs| - 1];
      assert fs == front + [last];
      FeedHolds(t, locked, front);
      AcceptHolds(t, locked, Feed(NewReceiver(MakeInit(t, locked)), t.aead, front), front, last);
    }
  }

  lemma CompleteIsWhole(t: Transfer)
    ensures Prefix(t, ChunkCount(|t.source|)) == t.source
  {
  }

  /** The result is the whole source, or there is none; and there is one exactly once every chunk is in. */
  lemma ResultIsWholeSource(t: Transfer, locked: Option<nat>, fs: seq<Bytes>)
    requires ValidTransfer(t) && forall f :: f in fs ==> Unforged(t, f)
    ensures var r := Feed(NewReceiver(MakeInit(t, locked)), t.aead, fs);
            && (ResultBytes(r).Ok? ==> ResultBytes(r).value == t.source)
            && (ResultBytes(r).Ok? <==> !r.failed && r.next == ChunkCount(|t.source|))
  {
    FeedHolds(t, locked, fs);
    CompleteIsWhole(t);
  }

  /** Once failed, a receiver stays failed, keeps nothing, and has no result, whatever comes. */
  lemma {:induction false} FailureIsPermanent(r: Receiver, a: Aead, fs: seq<Bytes>)
    requires r.failed && r.parts == []
    ensures Feed(r, a, fs) == r && ResultBytes(Feed(r, a, fs)).Err?
  {
    if fs != [] { FailureIsPermanent(r, a, fs[..|fs| - 1]); }
  }

  /** Once complete, nothing that arrives changes the result. */
  lemma {:induction false} CompletionIsFinal(r: Receiver, a: Aead, fs: seq<Bytes>)
    requires r.complete
    ensures Feed(r, a, fs) == r
  {
    if fs != [] { CompletionIsFinal(r, a, fs[..|fs| - 1]); }
  }

  // ----- what a receiver takes ---------------------------------------------------------------

  /** The magic number on the wire. */
  lemma MagicBytes(f: Bytes)
    requires |f| >= 4
    ensures ReadU32(f, 0) == MAGIC <==> f[..4] == [0x51, 0x42, 0x46, 0x53]
  {
    assert f[..4] == [f[0], f[1], f[2], f[3]];
  }

  /**
   Whatever it was promised and whatever its key, an open receiver takes a frame
   exactly if it is long enough, starts with the magic bytes and version 1, has
   the next index, the promised count and the promised file id in its fields, and
   opens under that index with its first thirty bytes as associated data. Any
   other frame ends the transfer and drops what was held.
   */
  lemma TakesExactly(r: Receiver, a: Aead, f: Bytes)
    requires !r.failed && !r.complete
    ensures var (r2, thrown) := Accept(r, a, f);
            && (thrown.None? <==>
                  && |f| >= 46 && f[..5] == [0x51, 0x42, 0x46, 0x53, 1]
                  && ReadU32(f, 6) == r.next && ReadU32(f, 10) == r.init.chunks && f[14..30] == r.init.fileId
                  && a.unseal(Nonce(r.next), f[30..], f[..30]).Some?)
            && (thrown.None? ==> var plain := a.unseal(Nonce(r.next), f[30..], f[..30]).value;
                  r2 == Receiver(r.init, r.parts + [plain], r.next + 1, r.received + |plain|, false, r.next + 1 == r.init.chunks))
            && (thrown.Some? ==> r2 == r.(failed := true, parts := []))
  {
    if |f| >= 46 {
      MagicBytes(f);
      assert f[..5] == f[..4] + [f[4]];
    }
  }

  lemma {:induction false} PartsCounted(init: Init, a: Aead, fs: seq<Bytes>)
    ensures var r := Feed(NewReceiver(init), a, fs);
            r.init == init && (!r.failed ==> r.received == |Concat(r.parts)| && |r.parts| == r.next && (r.complete <==> r.next == init.chunks))
  {
    if fs != [] {
      PartsCounted(init, a, fs[..|fs| - 1]);
      var r, r2 := Feed(NewReceiver(init), a, fs[..|fs| - 1]), Feed(NewReceiver(init), a, fs);
      if |r2.parts| > 0 { assert r2.parts[..|r2.parts| - 1] == r.parts || r2 == r || r2.failed; }
    }
  }

  /**
   Whatever the announcement says, and whatever frames and key there are: a result
   has the announced number of parts and exactly the announced number of bytes,
   those of the ciphertext for a locked file; and there is one exactly when no
   frame was refused and the parts and the bytes add up.
   */
  lemma ResultAsAnnounced(init: Init, a: Aead, fs: seq<Bytes>)
    ensures var r := Feed(NewReceiver(init), a, fs);
            var announced := if init.encSize.Some? then init.encSize.value else init.size;
            && (ResultBytes(r).Ok? <==> !r.failed && |r.parts| == init.chunks && |Concat(r.parts)| == announced)
            && (ResultBytes(r).Ok? ==> |ResultBytes(r).value| == announced)
  {
    PartsCounted(init, a, fs);
  }

  /** As few chunks as hold the source: none for an empty one, none of them empty, all but the last full. */
  lemma ChunkSizes(source: Bytes, i: nat)
    requires i < ChunkCount(|source|)
    ensures (ChunkCount(|source|) - 1) * 65536 < |source| <= ChunkCount(|source|) * 65536
    ensures 0 < |Chunk(source, i)| <= 65536 && (i + 1 < ChunkCount(|source|) ==> |Chunk(source, i)| == 65536)
  {
  }

  // ----- the honest stream ---------------------------------------------------------------

  lemma OwnFrame(t: Transfer, i: nat)
    requires ValidTransfer(t) && i < ChunkCount(|t.source|)
    ensures var total := ChunkCount(|t.source|); var header := Header(t.fileId, i, total);
            ParseFrame(FrameAt(t, i)) == Some(Parsed(t.fileId, i % TWO32, total % TWO32, header,
                                                     t.aead.seal(Nonce(i), Chunk(t.source, i), header)))
  {
    var header := Header(t.fileId, i, ChunkCount(|t.source|));
    ParseHeader(t.fileId, i, ChunkCount(|t.source|), t.aead.seal(Nonce(i), Chunk(t.source, i), header));
  }

  lemma {:induction false} FeedOwn(t: Transfer, locked: Option<nat>, n: nat)
    requires ValidTransfer(t) && n <= ChunkCount(|t.source|) < TWO32
    ensures var r := Feed(NewReceiver(MakeInit(t, locked)), t.aead, Frames(t, n));
            && r.init == MakeInit(t, locked) && !r.failed && r.next == n && Concat(r.parts) == Prefix(t, n)
            && r.received == |Prefix(t, n)| && (r.complete <==> n == ChunkCount(|t.source|))
  {
    if n == 0 {
      assert Frames(t, 0) == [];
    } else {
      var fs := Frames(t, n);
      assert fs[..n - 1] == Frames(t, n - 1);
      FeedOwn(t, locked, n - 1);
      AcceptOwn(t, locked, Feed(NewReceiver(MakeInit(t, locked)), t.aead, fs[..n - 1]));
    }
  }

  lemma NoWrap(v: nat)
    requires v < TWO32
    ensures v % TWO32 == v
  {
  }

  lemma AcceptOwn(t: Transfer, locked: Option<nat>, r: Receiver)
    requires ValidTransfer(t) && r.next < ChunkCount(|t.source|) < TWO32
    requires r.init == MakeInit(t, locked) && !r.failed && !r.complete
    requires Concat(r.parts) == Prefix(t, r.next) && r.received == |Prefix(t, r.next)|
    ensures var r2 := Accept(r, t.aead, FrameAt(t, r.next)).0;
            && r2.init == r.init && !r2.failed && r2.next == r.next + 1
            && Concat(r2.parts) == Prefix(t, r2.next) && r2.received == |Prefix(t, r2.next)|
            && (r2.complete <==> r2.next == ChunkCount(|t.source|))
  {
    var i, total := r.next, ChunkCount(|t.source|);
    assert Accepts(r, t.aead, FrameAt(t, i)) == Some(Chunk(t.source, i)) by {
      OwnFrame(t, i);
      NoWrap(i);
      NoWrap(total);
    }
    NextChunk(t, i);
    var r2 := Accept(r, t.aead, FrameAt(t, i)).0;
    assert r2.parts == r.parts + [Chunk(t.source, i)];
    assert r2.parts[..|r2.parts| - 1] == r.parts;
  }

  /** Beyond 2^32 chunks the header's count wraps, and the first frame already fails the transfer. */
  lemma {:induction false} FeedWrapped(t: Transfer, locked: Option<nat>, n: nat)
    requires ValidTransfer(t) && 0 < n <= ChunkCount(|t.source|) && TWO32 <= ChunkCount(|t.source|)
    ensures Feed(NewReceiver(MakeInit(t, locked)), t.aead, Frames(t, n)).failed
  {
    var fs := Frames(t, n);
    assert fs[..n - 1] == Frames(t, n - 1);
    if n == 1 {
      assert fs[..0] == [];
      OwnFrame(t, 0);
    } else {
      FeedWrapped(t, locked, n - 1);
    }
  }

  /** Feeding a transfer's own frames in order yields its source, exactly when its chunks can be counted in 32 bits. */
  lemma RoundTrip(t: Transfer, locked: Option<nat>)
    requires ValidTransfer(t)
    ensures ResultBytes(Feed(NewReceiver(MakeInit(t, locked)), t.aead, Frames(t, ChunkCount(|t.source|)))) == Ok(t.source)
       <==> ChunkCount(|t.source|) < TWO32
  {
    var total := ChunkCount(|t.source|);
    if total < TWO32 {
      FeedOwn(t, locked, total);
      CompleteIsWhole(t);
    } else {
      FeedWrapped(t, locked, total);
    }
  }
}
