/**
 What is signed for a membership token and for a join proof: five fields, one a
 line. A signature binds the text; this is about what else the text binds.
 Numbers are the text they are rendered as.
 */
module CanonicalText {
  datatype ClaimFields = ClaimFields(v: string, sid: string, mpk: string, iat: string, exp: string)

  datatype ProofFields = ProofFields(mpk: string, sessionId: string, peerId: string, timestamp: string, nonce: string)

  function Lines(fields: seq<string>): string {
    if fields == [] then "" else if |fields| == 1 then fields[0] else fields[0] + ['\n'] + Lines(fields[1..])
  }

  function OfClaims(c: ClaimFields): seq<string> { [c.v, c.sid, c.mpk, c.iat, c.exp] }

  function OfProof(p: ProofFields): seq<string> { [p.mpk, p.sessionId, p.peerId, p.timestamp, p.nonce] }

  function CanonicalClaims(c: ClaimFields): string { Lines(OfClaims(c)) }

  function CanonicalProof(p: ProofFields): string { Lines(OfProof(p)) }

  predicate OneLine(s: string) { '\n' !in s }

  predicate AllOneLine(fields: seq<string>) { forall i :: 0 <= i < |fields| ==> OneLine(fields[i]) }

  // ----- counting line breaks -----------------------------------------------------------------

  function Breaks(s: string): nat { multiset(s)['\n'] }

  function TotalBreaks(fields: seq<string>): nat {
    if fields == [] then 0 else Breaks(fields[0]) + TotalBreaks(fields[1..])
  }

  lemma {:induction false} LinesBreaks(fields: seq<string>)
    requires fields != []
    ensures Breaks(Lines(fields)) == TotalBreaks(fields) + |fields| - 1
  {
    if |fields| > 1 {
      LinesBreaks(fields[1..]);
      BreaksAdd(fields[0] + ['\n'], Lines(fields[1..]));
      BreaksAdd(fields[0], ['\n']);
    } else {
      assert fields[1..] == [];
    }
  }

  lemma BreaksAdd(a: string, b: string)
    ensures Breaks(a + b) == Breaks(a) + Breaks(b)
  {
    assert multiset(a + b) == multiset(a) + multiset(b);
  }

  lemma {:induction false} NoBreaksAtAll(fields: seq<string>)
    ensures TotalBreaks(fields) == 0 <==> AllOneLine(fields)
  {
    if fields != [] {
      NoBreaksAtAll(fields[1..]);
      assert Breaks(fields[0]) == 0 <==> OneLine(fields[0]);
      assert forall i :: 0 < i < |fields| ==> fields[i] == fields[1..][i - 1];
      assert AllOneLine(fields[1..]) && OneLine(fields[0]) ==> AllOneLine(fields);
    }
  }

  // ----- reading a text back --------------------------------------------------------------------

  lemma {:induction false} SplitsBack(a: seq<string>, b: seq<string>)
    requires |a| == |b| > 0 && AllOneLine(a) && AllOneLine(b) && Lines(a) == Lines(b)
    ensures a == b
  {
    if |a| > 1 {
      LineUnambiguous(a[0], b[0], Lines(a[1..]), Lines(b[1..]));
      SplitsBack(a[1..], b[1..]);
      assert a == [a[0]] + a[1..] && b == [b[0]] + b[1..];
    }
  }

  lemma LineUnambiguous(a: string, b: string, x: string, y: string)
    requires OneLine(a) && OneLine(b) && a + ['\n'] + x == b + ['\n'] + y
    ensures a == b && x == y
  {
    FirstBreak(a, x);
    FirstBreak(b, y);
  }

  lemma FirstBreak(a: string, x: string)
    requires OneLine(a)
    ensures (a + ['\n'] + x)[|a|] == '\n'
    ensures forall i :: 0 <= i < |a| ==> (a + ['\n'] + x)[i] != '\n'
    ensures (a + ['\n'] + x)[..|a|] == a && (a + ['\n'] + x)[|a| + 1..] == x
  {
  }

  /** A text made of fields that hold no line break reads back as these fields only, however the others were cut. */
  lemma ReadsBack(a: seq<string>, b: seq<string>)
    requires |a| == |b| > 0 && AllOneLine(a) && Lines(a) == Lines(b)
    ensures a == b
  {
    LinesBreaks(a);
    LinesBreaks(b);
    NoBreaksAtAll(a);
    NoBreaksAtAll(b);
    SplitsBack(a, b);
  }

  /**
   If no field the host signed holds a line break, the signature is good for no
   other claims: not for another vault, key or expiry, whatever is put in them.
   */
  lemma ClaimsAreBound(signed: ClaimFields, shown: ClaimFields)
    requires AllOneLine(OfClaims(signed)) && CanonicalClaims(signed) == CanonicalClaims(shown)
    ensures shown == signed
  {
    ReadsBack(OfClaims(signed), OfClaims(shown));
  }

  /** The same of the member's proof: its signature is good for no other session, peer, time or nonce. */
  lemma ProofIsBound(signed: ProofFields, shown: ProofFields)
    requires AllOneLine(OfProof(signed)) && CanonicalProof(signed) == CanonicalProof(shown)
    ensures shown == signed
  {
    ReadsBack(OfProof(signed), OfProof(shown));
  }

  // ----- exactly when ------------------------------------------------------------------------------

  /** Two lines in the middle of a text are as good as one field with a break in it. */
  lemma {:induction false} Merges(front: seq<string>, x: string, y: string, back: seq<string>)
    ensures Lines(front + [x, y] + back) == Lines(front + [x + ['\n'] + y] + back)
  {
    if front == [] {
      assert [] + [x, y] + back == [x] + ([y] + back) && ([] + [x, y] + back)[1..] == [y] + back;
      assert [] + [x + ['\n'] + y] + back == [x + ['\n'] + y] + back;
      assert ([y] + back)[1..] == back && ([x + ['\n'] + y] + back)[1..] == back;
      if back != [] { assert x + ['\n'] + (y + ['\n'] + Lines(back)) == (x + ['\n'] + y) + ['\n'] + Lines(back); }
    } else {
      Merges(front[1..], x, y, back);
      assert (front + [x, y] + back)[1..] == front[1..] + [x, y] + back;
      assert (front + [x + ['\n'] + y] + back)[1..] == front[1..] + [x + ['\n'] + y] + back;
    }
  }

  /** Two ways to cut one piece of text into two neighbouring fields. */
  lemma CutElsewhere(front: seq<string>, x: string, y: string, x2: string, y2: string, back: seq<string>)
    requires x + ['\n'] + y == x2 + ['\n'] + y2
    ensures Lines(front + [x, y] + back) == Lines(front + [x2, y2] + back)
  {
    Merges(front, x, y, back);
    Merges(front, x2, y2, back);
  }

  /** The text of these fields reads back as these fields only. */
  ghost predicate Binding(fields: seq<string>) {
    forall other: seq<string> :: |other| == |fields| && Lines(other) == Lines(fields) ==> other == fields
  }

  lemma Recut(fields: seq<string>, i: nat, k: nat) returns (other: seq<string>)
    requires |fields| >= 2 && i < |fields| && k < |fields[i]| && fields[i][k] == '\n'
    ensures |other| == |fields| && Lines(other) == Lines(fields) && other != fields
  {
    var a, b := fields[i][..k], fields[i][k + 1..];
    assert fields[i] == a + ['\n'] + b;
    if i + 1 < |fields| {
      var y := fields[i + 1];
      other := fields[..i] + [a, b + ['\n'] + y] + fields[i + 2..];
      assert fields == fields[..i] + [fields[i], y] + fields[i + 2..];
      assert fields[i] + ['\n'] + y == a + ['\n'] + (b + ['\n'] + y);
      CutElsewhere(fields[..i], fields[i], y, a, b + ['\n'] + y, fields[i + 2..]);
      assert |other[i]| < |fields[i]|;
    } else {
      var x := fields[i - 1];
      other := fields[..i - 1] + [x + ['\n'] + a, b] + [];
      assert fields == fields[..i - 1] + [x, fields[i]] + [];
      assert x + ['\n'] + fields[i] == (x + ['\n'] + a) + ['\n'] + b;
      CutElsewhere(fields[..i - 1], x, fields[i], x + ['\n'] + a, b, []);
      assert |other[i]| < |fields[i]|;
    }
  }

  /** A signed text stands for its own fields alone, if and only if none of them holds a line break. */
  lemma BindingExactly(fields: seq<string>)
    requires |fields| >= 2
    ensures Binding(fields) <==> AllOneLine(fields)
  {
    if AllOneLine(fields) {
      forall other: seq<string> | |other| == |fields| && Lines(other) == Lines(fields) ensures other == fields {
        ReadsBack(fields, other);
      }
    } else {
      var i: nat :| i < |fields| && !OneLine(fields[i]);
      var k: nat :| k < |fields[i]| && fields[i][k] == '\n';
      var other := Recut(fields, i, k);
    }
  }
}
