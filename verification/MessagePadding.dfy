/**
 Length-prefixed padding to a few fixed sizes, applied before encryption so that
 the relay sees only the tier a message falls in.
 */
module MessagePadding {
  import opened Common
  import opened ByteCodec

  const BUCKETS: seq<nat> := [8 * 1024, 64 * 1024, 512 * 1024, 4 * 1024 * 1024]
  const PREFIX := 4

  datatype PaddingError = HeaderTruncated | LengthOutOfRange

  /** `t` is the smallest tier that holds `framed` bytes; above every tier nothing is added. */
  ghost predicate IsTargetOf(t: nat, framed: nat) {
    && t >= framed
    && (t == framed || t in BUCKETS)
    && (forall b :: b in BUCKETS && framed <= b ==> t <= b)
    && (t == framed ==> framed in BUCKETS || forall b :: b in BUCKETS ==> b < framed)
  }

  /** The loop over the tiers returns the first that fits. */
  method TargetSize(framed: nat) returns (t: nat)
    ensures IsTargetOf(t, framed)
    ensures t == Target(framed)
  {
    for i := 0 to |BUCKETS|
      invariant forall k :: 0 <= k < i ==> BUCKETS[k] < framed
    {
      if framed <= BUCKETS[i] { return BUCKETS[i]; }
    }
    return framed;
  }

  function Target(framed: nat): (t: nat)
    ensures IsTargetOf(t, framed)
  {
    if framed <= BUCKETS[0] then BUCKETS[0]
    else if framed <= BUCKETS[1] then BUCKETS[1]
    else if framed <= BUCKETS[2] then BUCKETS[2]
    else if framed <= BUCKETS[3] then BUCKETS[3]
    else framed
  }

  /** What a padded message is: the length, the content, filler up to the target. */
  function Padded(content: Bytes): (out: Bytes)
    ensures |out| == Target(PREFIX + |content|)
  {
    U32(|content|) + content + Zeros(Target(PREFIX + |content|) - PREFIX - |content|)
  }

  method PadPlaintext(content: Bytes) returns (out: array<byte>)
    ensures fresh(out) && out[..] == Padded(content)
  {
    var total := TargetSize(PREFIX + |content|);
    out := NewBuffer(total);
    SetBytes(out, U32(|content|), 0);
    ghost var framed := out[..];
    SetBytes(out, content, PREFIX);
    assert out[..] == U32(|content|) + content + Zeros(total - PREFIX - |content|);
  }

  function Unpad(padded: Bytes): Result<Bytes, PaddingError> {
    if |padded| < PREFIX then Err(HeaderTruncated)
    else
      var end := PREFIX + ReadU32(padded, 0);
      if end > |padded| then Err(LengthOutOfRange) else Ok(padded[PREFIX..end])
  }

  /** Unpadding any framed buffer gives the content back up to the 32-bit length field. */
  lemma UnpadFramed(content: Bytes, filler: Bytes)
    ensures Unpad(U32(|content|) + content + filler) == Ok(content[..|content| % TWO32])
  {
    var n, len, rest := |content| % TWO32, U32(|content|), content + filler;
    var p := len + content + filler;
    assert p == len + rest;
    assert p == [] + len + rest;
    U32RoundTrip(|content|);
    ReadU32In([], len, rest);
    assert n <= |content| <= |rest| && |p| == PREFIX + |rest|;
    assert p[PREFIX..] == rest;
    assert p[PREFIX..PREFIX + n] == p[PREFIX..][..n];
    assert rest[..n] == content[..n];
  }

  lemma UnpadPadded(content: Bytes)
    ensures Unpad(Padded(content)) == Ok(content[..|content| % TWO32])
  {
    UnpadFramed(content, Zeros(Target(PREFIX + |content|) - PREFIX - |content|));
  }

  /** Padding is undone exactly when the length fits its 32-bit field. */
  lemma UnpadUndoesPad(content: Bytes)
    ensures Unpad(Padded(content)) == Ok(content) <==> |content| < TWO32
  {
    UnpadPadded(content);
    assert |content| < TWO32 ==> content[..|content|] == content;
  }

  /** Reading the four bytes that a value below 2^32 was read from. */
  lemma LengthBytes(p: Bytes)
    requires |p| >= PREFIX
    ensures U32(ReadU32(p, 0)) == p[..PREFIX]
  {
    var b0: nat, b1: nat, b2: nat, b3: nat := p[0], p[1], p[2], p[3];
    var v := ReadU32(p, 0);
    assert v / 0x100 == b0 * 0x1_0000 + b1 * 0x100 + b2;
    assert v / 0x1_0000 == b0 * 0x100 + b1;
    assert v / 0x100_0000 == b0;
    assert U32(v) == [p[0], p[1], p[2], p[3]];
  }

  ghost predicate Frames(p: Bytes, content: Bytes, filler: Bytes) { p == U32(|content|) + content + filler }

  /** Whatever the buffer: it unpads to a content exactly if it is the content's length, the content and something behind it. */
  lemma UnpadsToWhatItFrames(p: Bytes, content: Bytes)
    ensures Unpad(p) == Ok(content) <==> |content| < TWO32 && exists filler :: Frames(p, content, filler)
  {
    if Unpad(p) == Ok(content) {
      LengthBytes(p);
      var end := PREFIX + |content|;
      assert p == p[..PREFIX] + p[PREFIX..end] + p[end..];
      assert Frames(p, content, p[end..]);
    }
    if filler :| Frames(p, content, filler) {
      UnpadFramed(content, filler);
      if |content| < TWO32 { assert content[..|content| % TWO32] == content; }
    }
  }

  /** A longer message never gets a smaller padded size. */
  lemma PaddedLengthMonotone(a: Bytes, b: Bytes)
    requires |a| <= |b|
    ensures |Padded(a)| <= |Padded(b)|
  {
  }

  /** Any tier hides everything about the length but the tier: contents that fit it and not the one below look alike. */
  lemma PaddedLengthHidesLength(a: Bytes, b: Bytes, t: nat)
    requires t < |BUCKETS| && PREFIX + |a| <= BUCKETS[t] && PREFIX + |b| <= BUCKETS[t]
    requires t > 0 ==> BUCKETS[t - 1] < PREFIX + |a| && BUCKETS[t - 1] < PREFIX + |b|
    ensures |Padded(a)| == |Padded(b)| == BUCKETS[t]
  {
    assert t == 0 || t == 1 || t == 2 || t == 3;
  }
}
