/** One hash function that meets the assumptions made of SHA-256, so that they are consistent, and whose roots can be
    worked out: a root keeps the low 32 bits of its first leaf, and grows when every leaf does. */
module SampleHasher {
  import opened Ordering
  import opened JsMap
  import opened Hashing

  const LOW: nat := 0x1_0000_0000

  /** A pairing of numbers: the sum decides first, then the left one. */
  function Pairing(a: nat, b: nat): nat { (a + b) * (a + b) + a }

  function OptionCode(o: Option<nat>): nat { if o.Some? then o.value + 1 else 0 }

  function IntCode(i: int): nat { if i >= 0 then 2 * i else -2 * i - 1 }

  function BodyCode(b: ConsensusBody): nat {
    match b
    case XidBody(xid) => 2 * xid
    case AnchorBody(event, hash, ts, xid) =>
      2 * Pairing(Pairing(OptionCode(event), OptionCode(hash)), Pairing(IntCode(ts), xid)) + 1
  }

  function Code(p: Preimage): nat {
    match p
    case Pair(left, right) => 3 * Pairing(left, right)
    case Body(body) => 3 * BodyCode(body) + 1
    case Three(a, b, c) => 3 * Pairing(Pairing(a, b), c) + 2
  }

  function Low(p: Preimage): (r: nat)
    ensures r < LOW
  {
    if p.Pair? then p.left % LOW else 0
  }

  function Sha(p: Preimage): Hash { LOW * Code(p) + Low(p) }

  function Short16(h: Hash): Short { h }

  function Sample(): Hasher { Hasher(Sha, Short16) }

  lemma SquareGrows(n: nat, m: nat)
    requires n < m
    ensures n * n + n < m * m
  {
    assert m * m >= (n + 1) * m >= (n + 1) * (n + 1) by { MulAtMost(m, n + 1, m); MulAtMost(n + 1, n + 1, m); }
  }

  lemma PairingGrows(a: nat, b: nat, c: nat, d: nat)
    requires a + b < c + d
    ensures Pairing(a, b) < Pairing(c, d)
  {
    SquareGrows(a + b, c + d);
  }

  lemma PairingInjective(a: nat, b: nat, c: nat, d: nat)
    requires Pairing(a, b) == Pairing(c, d)
    ensures a == c && b == d
  {
    if a + b < c + d { PairingGrows(a, b, c, d); }
    if c + d < a + b { PairingGrows(c, d, a, b); }
    assert a + b == c + d;
  }

  lemma BodyCodeInjective(x: ConsensusBody, y: ConsensusBody)
    requires BodyCode(x) == BodyCode(y)
    ensures x == y
  {
    hide Pairing;
    if x.AnchorBody? && y.AnchorBody? {
      var ox, ix := Pairing(OptionCode(x.event), OptionCode(x.hash)), Pairing(IntCode(x.tsNanos), x.xid);
      var oy, iy := Pairing(OptionCode(y.event), OptionCode(y.hash)), Pairing(IntCode(y.tsNanos), y.xid);
      PairingInjective(ox, ix, oy, iy);
      PairingInjective(OptionCode(x.event), OptionCode(x.hash), OptionCode(y.event), OptionCode(y.hash));
      PairingInjective(IntCode(x.tsNanos), x.xid, IntCode(y.tsNanos), y.xid);
    }
  }

  lemma CodeInjective(p: Preimage, q: Preimage)
    requires Code(p) == Code(q)
    ensures p == q
  {
    hide Pairing, BodyCode;
    match p {
      case Pair(a, b) => if q.Pair? { PairingInjective(a, b, q.left, q.right); }
      case Body(b) => if q.Body? { BodyCodeInjective(b, q.body); }
      case Three(a, b, c) =>
        if q.Three? {
          PairingInjective(Pairing(a, b), c, Pairing(q.a, q.b), q.c);
          PairingInjective(a, b, q.a, q.b);
        }
    }
  }

  /** The assumptions on the hash function can be met. */
  lemma SampleIsCollisionFree()
    ensures Sample().CollisionFree()
  {
    hide Code, Low;
    forall p, q | Sha(p) == Sha(q) ensures p == q {
      DivUnique(Sha(p), LOW, Code(p), Low(p));
      DivUnique(Sha(q), LOW, Code(q), Low(q));
      CodeInjective(p, q);
    }
  }

  // ---- its roots ----

  lemma PairKeepsLow(a: Hash, b: Hash)
    ensures Sha(Pair(a, b)) % LOW == a % LOW
  {
    hide Pairing;
    DivUnique(Sha(Pair(a, b)), LOW, Code(Pair(a, b)), a % LOW);
  }

  lemma {:induction false} MerkleKeepsLow(hs: seq<Hash>)
    requires hs != []
    ensures Merkle(Sample(), hs) % LOW == hs[0] % LOW
    decreases |hs|
  {
    hide Sha;
    if |hs| > 1 {
      PairKeepsLow(hs[0], hs[1]);
      MerkleKeepsLow(Level(Sample(), hs));
    }
  }

  lemma PairGrows(a: Hash, b: Hash, c: Hash, d: Hash)
    requires a < c && b < d
    ensures Sha(Pair(a, b)) < Sha(Pair(c, d))
  {
    PairingGrows(a, b, c, d);
    hide Pairing;
    MulLess(LOW, Code(Pair(a, b)), Code(Pair(c, d)));
  }

  ghost predicate Below(a: seq<Hash>, b: seq<Hash>) { |a| == |b| && forall i :: 0 <= i < |a| ==> a[i] < b[i] }

  lemma {:induction false} LevelGrows(a: seq<Hash>, b: seq<Hash>)
    requires Below(a, b)
    ensures Below(Level(Sample(), a), Level(Sample(), b))
  {
    hide Sha;
    if |a| == 1 {
      PairGrows(a[0], a[0], b[0], b[0]);
    } else if |a| > 1 {
      PairGrows(a[0], a[1], b[0], b[1]);
      LevelGrows(a[2..], b[2..]);
    }
  }

  lemma {:induction false} MerkleGrows(a: seq<Hash>, b: seq<Hash>)
    requires Below(a, b) && a != []
    ensures Merkle(Sample(), a) < Merkle(Sample(), b)
    decreases |a|
  {
    if |a| > 1 {
      LevelGrows(a, b);
      MerkleGrows(Level(Sample(), a), Level(Sample(), b));
    }
  }
}
