/** Content hashes and the merkle tree over them. SHA-256 is a parameter assumed collision-free on the three
    fixed shapes the ledger feeds it, and so is its 16-digit truncation. */
module Hashing {
  import opened Ordering
  import opened JsMap

  /** 64 hex digits read as a number, and their first 16. */
  type Hash = nat
  type Short = nat

  datatype Kind = Anchor | Other

  /** What two correct nodes must agree on, and what is only envelope. `xid` is None when it is not well formed. */
  datatype Tx = Tx(kind: Kind, xid: Option<nat>, event: Option<nat>, hash: Option<nat>, tsNanos: int, envelope: nat)

  datatype ConsensusBody =
    | AnchorBody(event: Option<nat>, hash: Option<nat>, tsNanos: int, xid: nat)
    | XidBody(xid: nat)

  function ConsensusBodyOf(tx: Tx): Option<ConsensusBody> {
    match tx.xid
    case None => None
    case Some(xid) =>
      if tx.kind.Anchor? then Some(AnchorBody(tx.event, tx.hash, tx.tsNanos, xid)) else Some(XidBody(xid))
  }

  /** What is hashed: a transaction body, two hashes joined, or three hashes joined. */
  datatype Preimage = Body(body: ConsensusBody) | Pair(left: Hash, right: Hash) | Three(a: Hash, b: Hash, c: Hash)

  datatype Hasher = Hasher(sha: Preimage -> Hash, short: Hash -> Short) {
    ghost predicate CollisionFree() {
      && (forall p, q :: sha(p) == sha(q) ==> p == q)
      && (forall a, b :: short(a) == short(b) ==> a == b)
    }
  }

  /** The hash a block must carry for its transaction; none when it has no consensus body. */
  function TxHash(H: Hasher, tx: Tx): Option<Hash> {
    match ConsensusBodyOf(tx)
    case None => None
    case Some(body) => Some(H.sha(Body(body)))
  }

  /** Two transactions share a hash exactly when they agree on what nodes must agree on: the xid, whether they are
      anchors and, for anchors, the event, the hash and the time. Only an ill-formed xid has no hash. */
  lemma TxHashAgrees(H: Hasher, a: Tx, b: Tx)
    requires H.CollisionFree()
    ensures TxHash(H, a).None? <==> a.xid.None?
    ensures a.xid.Some? && b.xid.Some? ==>
      (TxHash(H, a) == TxHash(H, b) <==>
        && a.xid == b.xid && a.kind == b.kind
        && (a.kind == Anchor ==> a.event == b.event && a.hash == b.hash && a.tsNanos == b.tsNanos))
  {
    if a.xid.Some? && b.xid.Some? && TxHash(H, a) == TxHash(H, b) {
      assert Body(ConsensusBodyOf(a).value) == Body(ConsensusBodyOf(b).value);
    }
  }

  // ---- merkle ----

  /** The next level up; an odd last hash is paired with itself. */
  function Level(H: Hasher, hs: seq<Hash>): (r: seq<Hash>)
    ensures |r| == (|hs| + 1) / 2
  {
    if hs == [] then []
    else if |hs| == 1 then [H.sha(Pair(hs[0], hs[0]))]
    else [H.sha(Pair(hs[0], hs[1]))] + Level(H, hs[2..])
  }

  function Merkle(H: Hasher, hs: seq<Hash>): Hash
    requires hs != []
    decreases |hs|
  {
    if |hs| == 1 then hs[0] else Merkle(H, Level(H, hs))
  }

  lemma {:induction false} LevelBinds(H: Hasher, a: seq<Hash>, b: seq<Hash>)
    requires H.CollisionFree() && |a| == |b| && Level(H, a) == Level(H, b)
    ensures a == b
  {
    var la, lb := Level(H, a), Level(H, b);
    if |a| == 1 {
      assert la[0] == lb[0];
      assert Pair(a[0], a[0]) == Pair(b[0], b[0]);
    } else if |a| > 1 {
      assert la[0] == lb[0] && la[1..] == lb[1..];
      assert Pair(a[0], a[1]) == Pair(b[0], b[1]);
      LevelBinds(H, a[2..], b[2..]);
      assert a == [a[0], a[1]] + a[2..] && b == [b[0], b[1]] + b[2..];
    }
  }

  /** A merkle root binds the whole sequence, among sequences of one length. */
  lemma {:induction false} MerkleBinds(H: Hasher, a: seq<Hash>, b: seq<Hash>)
    requires H.CollisionFree() && |a| == |b| > 0 && Merkle(H, a) == Merkle(H, b)
    ensures a == b
    decreases |a|
  {
    if |a| > 1 {
      MerkleBinds(H, Level(H, a), Level(H, b));
      LevelBinds(H, a, b);
    }
  }

  lemma {:induction false} LevelRepeatsOddLeaf(H: Hasher, hs: seq<Hash>)
    requires |hs| % 2 == 1
    ensures Level(H, hs + [hs[|hs| - 1]]) == Level(H, hs)
  {
    if |hs| > 1 {
      LevelRepeatsOddLeaf(H, hs[2..]);
      assert (hs + [hs[|hs| - 1]])[2..] == hs[2..] + [hs[2..][|hs[2..]| - 1]];
    }
  }

  /** Across lengths it does not bind: repeating an odd last hash keeps the root, whatever the hash function. */
  lemma OddLeafCollision(H: Hasher, hs: seq<Hash>)
    requires |hs| % 2 == 1 && |hs| > 1
    ensures Merkle(H, hs + [hs[|hs| - 1]]) == Merkle(H, hs)
  {
    LevelRepeatsOddLeaf(H, hs);
  }

  lemma LevelStep(H: Hasher, hs: seq<Hash>)
    requires hs != []
    ensures Level(H, hs) == [H.sha(Pair(hs[0], if |hs| > 1 then hs[1] else hs[0]))] +
      Level(H, if |hs| > 1 then hs[2..] else [])
  {
  }

  /** Each hash of the next level is that of two neighbours, in order; an odd last one stands on both sides. */
  ghost predicate PairsUp(H: Hasher, hs: seq<Hash>, next: seq<Hash>) {
    |next| == (|hs| + 1) / 2 && forall i :: 0 <= i < |next| ==>
      next[i] == H.sha(Pair(hs[2 * i], if 2 * i + 1 < |hs| then hs[2 * i + 1] else hs[2 * i]))
  }

  lemma {:induction false} LevelPairsUp(H: Hasher, hs: seq<Hash>)
    ensures PairsUp(H, hs, Level(H, hs))
  {
    if |hs| > 1 {
      LevelPairsUp(H, hs[2..]);
      var rest := Level(H, hs[2..]);
      forall i | 1 <= i < |Level(H, hs)|
        ensures Level(H, hs)[i] == H.sha(Pair(hs[2 * i], if 2 * i + 1 < |hs| then hs[2 * i + 1] else hs[2 * i]))
      {
        assert Level(H, hs)[i] == rest[i - 1];
      }
    }
  }

  /** Up to four hashes the root in full; above that, level by level. */
  lemma MerkleOfFew(H: Hasher, hs: seq<Hash>)
    ensures |hs| == 1 ==> Merkle(H, hs) == hs[0]
    ensures |hs| == 2 ==> Merkle(H, hs) == H.sha(Pair(hs[0], hs[1]))
    ensures |hs| == 3 ==> Merkle(H, hs) == H.sha(Pair(H.sha(Pair(hs[0], hs[1])), H.sha(Pair(hs[2], hs[2]))))
    ensures |hs| == 4 ==> Merkle(H, hs) == H.sha(Pair(H.sha(Pair(hs[0], hs[1])), H.sha(Pair(hs[2], hs[3]))))
    ensures |hs| > 1 ==> exists next :: PairsUp(H, hs, next) && Merkle(H, hs) == Merkle(H, next)
  {
    if |hs| > 1 {
      var next := Level(H, hs);
      LevelPairsUp(H, hs);
      assert PairsUp(H, hs, next) && Merkle(H, hs) == Merkle(H, next);
      LevelPairsUp(H, next);
      assert |next| == 2 ==> Merkle(H, next) == Merkle(H, Level(H, next)) == Level(H, next)[0];
    }
  }

  /** The pairing loop. */
  method NextLevel(H: Hasher, hs: seq<Hash>) returns (next: seq<Hash>)
    ensures next == Level(H, hs) && PairsUp(H, hs, next)
  {
    LevelPairsUp(H, hs);
    next := [];
    var i := 0;
    ghost var rest := hs;
    while i < |hs|
      invariant 0 <= i <= |hs| + 1
      invariant rest == if i <= |hs| then hs[i..] else []
      invariant next + Level(H, rest) == Level(H, hs)
    {
      LevelStep(H, rest);
      next := next + [H.sha(Pair(hs[i], if i + 1 < |hs| then hs[i + 1] else hs[i]))];
      rest := if |rest| > 1 then rest[2..] else [];
      i := i + 2;
    }
  }

  method ComputeMerkle(H: Hasher, hs: seq<Hash>) returns (root: Hash)
    requires hs != []
    ensures root == Merkle(H, hs)
  {
    var level := hs;
    while |level| > 1
      invariant level != [] && Merkle(H, level) == Merkle(H, hs)
      decreases |level|
    {
      level := NextLevel(H, level);
    }
    root := level[0];
  }

  // ---- faces and cubes ----

  const FACE_SIZE: nat := 9
  const CUBE_SLOTS: nat := 3

  function FaceRootOf(H: Hasher, hashes: seq<Hash>): Hash
    requires hashes != []
  {
    SortSorts(hashes);
    Merkle(H, Sort(hashes))
  }

  function CubeIdOf(H: Hasher, roots: seq<Hash>): Short
    requires |roots| == 3
  {
    SortSorts(roots);
    var s := Sort(roots);
    H.short(H.sha(Three(s[0], s[1], s[2])))
  }

  function CubeRootOf(H: Hasher, roots: seq<Hash>): Hash
    requires |roots| == 3
  {
    SortSorts(roots);
    Merkle(H, Sort(roots))
  }

  /** Over hashes already in ascending order the roots are merkle roots, and a cube's id names its three in that
      order. */
  lemma RootsOfSorted(H: Hasher, hs: seq<Hash>)
    requires Sorted(hs) && hs != []
    ensures FaceRootOf(H, hs) == Merkle(H, hs)
    ensures |hs| == 3 ==>
      CubeRootOf(H, hs) == Merkle(H, hs) && CubeIdOf(H, hs) == H.short(H.sha(Three(hs[0], hs[1], hs[2])))
  {
    SortOfSorted(hs);
  }

  lemma FaceRootBinds(H: Hasher, a: seq<Hash>, b: seq<Hash>)
    requires H.CollisionFree() && |a| == |b| > 0
    ensures FaceRootOf(H, a) == FaceRootOf(H, b) <==> multiset(a) == multiset(b)
  {
    SortSorts(a);
    SortSorts(b);
    if FaceRootOf(H, a) == FaceRootOf(H, b) { MerkleBinds(H, Sort(a), Sort(b)); }
    if multiset(a) == multiset(b) { SortOfPermutation(a, b); }
  }

  lemma CubeIdBinds(H: Hasher, a: seq<Hash>, b: seq<Hash>)
    requires H.CollisionFree() && |a| == |b| == 3
    ensures CubeIdOf(H, a) == CubeIdOf(H, b) <==> multiset(a) == multiset(b)
  {
    SortSorts(a);
    SortSorts(b);
    var s, t := Sort(a), Sort(b);
    if CubeIdOf(H, a) == CubeIdOf(H, b) {
      assert Three(s[0], s[1], s[2]) == Three(t[0], t[1], t[2]);
      assert s == t;
    }
    if multiset(a) == multiset(b) { SortOfPermutation(a, b); }
  }
}
