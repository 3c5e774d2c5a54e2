/**
 The handshake prologue binds a handshake to one session and one ordered pair of
 peers. Each field is prefixed by its length in decimal and a colon, so that no
 field can run into its neighbour.
 */
module Prologue {
  import opened Common

  const COLON: byte := 58
  const BAR: byte := 124

  const PROTOCOL_NAME: string := "Noise_XX_25519_ChaChaPoly_SHA256"

  function Ascii(s: string): (b: Bytes)
    requires forall i :: 0 <= i < |s| ==> s[i] < 128 as char
    ensures |b| == |s|
  {
    seq(|s|, i requires 0 <= i < |s| => s[i] as int)
  }

  function Decimal(n: nat): (d: Bytes)
    ensures |d| > 0 && forall i :: 0 <= i < |d| ==> 48 <= d[i] < COLON
  {
    if n < 10 then [48 + n] else Decimal(n / 10) + [48 + n % 10]
  }

  /** A field, given as its UTF-8 bytes. */
  function Field(s: Bytes): Bytes { Decimal(|s|) + [COLON] + s }

  function BuildPrologue(sessionId: Bytes, initiator: Bytes, responder: Bytes): Bytes {
    Field(Ascii(PROTOCOL_NAME)) + ([BAR] + (Field(sessionId) + ([BAR] + (Field(initiator) + ([BAR] + Field(responder))))))
  }

  lemma {:induction false} DecimalInjective(a: nat, b: nat)
    ensures Decimal(a) == Decimal(b) <==> a == b
  {
    if a < 10 && b < 10 {
      assert Decimal(a)[0] == 48 + a && Decimal(b)[0] == 48 + b;
    } else if a >= 10 && b >= 10 {
      DecimalInjective(a / 10, b / 10);
      var x, y := Decimal(a), Decimal(b);
      assert x[..|x| - 1] == Decimal(a / 10) && y[..|y| - 1] == Decimal(b / 10);
      assert x[|x| - 1] == 48 + a % 10 && y[|y| - 1] == 48 + b % 10;
      assert a == a / 10 * 10 + a % 10 && b == b / 10 * 10 + b % 10;
    }
  }

  /** Where the first colon is tells two length prefixes apart. */
  lemma FieldUnambiguous(a: Bytes, b: Bytes, x: Bytes, y: Bytes)
    requires Field(a) + x == Field(b) + y
    ensures a == b && x == y
  {
    var s, m, n := Field(a) + x, |Decimal(|a|)|, |Decimal(|b|)|;
    assert s[m] == COLON && s[n] == COLON;
    assert s[..m] == Decimal(|a|) && s[..n] == Decimal(|b|);
    assert forall k :: 0 <= k < n ==> s[k] == Decimal(|b|)[k];
    assert forall k :: 0 <= k < m ==> s[k] == Decimal(|a|)[k];
    assert m == n;
    DecimalInjective(|a|, |b|);
    assert s[m + 1..m + 1 + |a|] == a && s[m + 1..m + 1 + |a|] == b;
    assert s[m + 1 + |a|..] == x && s[m + 1 + |a|..] == y;
  }

  lemma FieldThenBar(a: Bytes, b: Bytes, x: Bytes, y: Bytes)
    requires Field(a) + ([BAR] + x) == Field(b) + ([BAR] + y)
    ensures a == b && x == y
  {
    FieldUnambiguous(a, b, [BAR] + x, [BAR] + y);
    assert ([BAR] + x)[1..] == x && ([BAR] + y)[1..] == y;
  }

  /** Two prologues are the same bytes exactly for the same session and the same ordered pair. */
  lemma PrologueInjective(s: Bytes, i: Bytes, r: Bytes, s2: Bytes, i2: Bytes, r2: Bytes)
    ensures BuildPrologue(s, i, r) == BuildPrologue(s2, i2, r2) <==> s == s2 && i == i2 && r == r2
  {
    if BuildPrologue(s, i, r) == BuildPrologue(s2, i2, r2) {
      var name := Ascii(PROTOCOL_NAME);
      FieldThenBar(name, name, Field(s) + ([BAR] + (Field(i) + ([BAR] + Field(r)))),
                               Field(s2) + ([BAR] + (Field(i2) + ([BAR] + Field(r2)))));
      FieldThenBar(s, s2, Field(i) + ([BAR] + Field(r)), Field(i2) + ([BAR] + Field(r2)));
      FieldThenBar(i, i2, Field(r), Field(r2));
      assert Field(r) + [] == Field(r) && Field(r2) + [] == Field(r2);
      FieldUnambiguous(r, r2, [], []);
    }
  }
}
