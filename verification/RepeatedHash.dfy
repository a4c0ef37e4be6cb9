/** A cube that passes verification, is adopted, and cannot be served again: two of its faces share a block. */
module RepeatedHash {
  import opened Ordering
  import opened JsMap
  import opened Hashing
  import opened PlacementCheck
  import opened CubeSync
  import opened CubeStore

  /** 26 transactions, no two with one consensus body, that every check accepts. */
  ghost predicate Usable(c: Checks, txs: seq<Tx>) {
    && |txs| == 26
    && (forall i :: 0 <= i < 26 ==> ConsensusBodyOf(txs[i]).Some? && Fine(c, txs[i]))
    && forall i, j :: 0 <= i < j < 26 ==> ConsensusBodyOf(txs[i]) != ConsensusBodyOf(txs[j])
  }

  predicate Fine(c: Checks, tx: Tx) {
    c.xidOk(tx) && (c.shapeOk.Some? ==> c.shapeOk.value(tx)) && (c.sigOk.Some? ==> c.sigOk.value(tx))
  }

  /** Which transaction stands at place i of face k: the first of face 0 again opens face 2. */
  function Pick(k: nat, i: nat): (r: nat)
    requires k < CUBE_SLOTS && i < FACE_SIZE
    ensures r < 26
  {
    if k < 2 then FACE_SIZE * k + i else if i == 0 then 0 else 17 + i
  }

  function BlockFor(H: Hasher, tx: Tx): WireBlock { WireBlock(TxHash(H, tx), Some(tx), None, None, None) }

  function FaceFor(H: Hasher, txs: seq<Tx>, k: nat): (r: WireFace)
    requires |txs| == 26 && k < CUBE_SLOTS
    ensures |r.blocks| == FACE_SIZE
  {
    WireFace(seq(FACE_SIZE, i requires 0 <= i < FACE_SIZE => BlockFor(H, txs[Pick(k, i)])), None, None, None)
  }

  function Repeating(H: Hasher, txs: seq<Tx>): Payload
    requires |txs| == 26
  {
    Payload([FaceFor(H, txs, 0), FaceFor(H, txs, 1), FaceFor(H, txs, 2)], None)
  }

  function HashAt(H: Hasher, txs: seq<Tx>, i: nat): Hash
    requires i < |txs| && ConsensusBodyOf(txs[i]).Some?
  {
    H.sha(Body(ConsensusBodyOf(txs[i]).value))
  }

  lemma HashesDiffer(H: Hasher, c: Checks, txs: seq<Tx>, i: nat, j: nat)
    requires H.CollisionFree() && Usable(c, txs) && i < 26 && j < 26
    ensures HashAt(H, txs, i) == HashAt(H, txs, j) <==> i == j
  {
    if HashAt(H, txs, i) == HashAt(H, txs, j) {
      assert Body(ConsensusBodyOf(txs[i]).value) == Body(ConsensusBodyOf(txs[j]).value);
      assert ConsensusBodyOf(txs[i]) == ConsensusBodyOf(txs[j]);
    }
  }

  lemma FaceIsGood(H: Hasher, c: Checks, txs: seq<Tx>, k: nat)
    requires H.CollisionFree() && Usable(c, txs) && k < CUBE_SLOTS
    ensures var f := FaceFor(H, txs, k);
      && SoundFace(H, c, f) && WellFormed(f) && Claimless(f) && Passes(c.shapeOk, f) && Passes(c.sigOk, f)
      && forall i :: 0 <= i < FACE_SIZE ==> Keys(f)[i] == HashAt(H, txs, Pick(k, i))
  {
    var f := FaceFor(H, txs, k);
    forall i | 0 <= i < FACE_SIZE
      ensures Sound(H, c, f.blocks[i]) && f.blocks[i].tx.value == txs[Pick(k, i)] && Fine(c, txs[Pick(k, i)])
    {
    }
    forall i, j | 0 <= i < j < FACE_SIZE ensures Keys(f)[i] != Keys(f)[j] {
      HashesDiffer(H, c, txs, Pick(k, i), Pick(k, j));
    }
  }

  /** A face whose key at place i is none of another face's has another root. */
  lemma RootsDiffer(H: Hasher, f: WireFace, g: WireFace, i: nat)
    requires H.CollisionFree() && WellFormed(f) && WellFormed(g) && i < FACE_SIZE && Keys(f)[i] !in Keys(g)
    ensures Root(H, f) != Root(H, g)
  {
    FaceRootBinds(H, Keys(f), Keys(g));
    assert Keys(f)[i] in multiset(Keys(f));
  }

  lemma NotIn(H: Hasher, c: Checks, txs: seq<Tx>, k: nat, i: nat, m: nat)
    requires H.CollisionFree() && Usable(c, txs) && k < 3 && m < 3 && i < FACE_SIZE
    requires forall j :: 0 <= j < FACE_SIZE ==> Pick(m, j) != Pick(k, i)
    ensures WellFormed(FaceFor(H, txs, k)) && WellFormed(FaceFor(H, txs, m))
    ensures Root(H, FaceFor(H, txs, k)) != Root(H, FaceFor(H, txs, m))
  {
    FaceIsGood(H, c, txs, k);
    FaceIsGood(H, c, txs, m);
    var f, g := FaceFor(H, txs, k), FaceFor(H, txs, m);
    forall j | 0 <= j < FACE_SIZE ensures Keys(g)[j] != Keys(f)[i] { HashesDiffer(H, c, txs, Pick(m, j), Pick(k, i)); }
    RootsDiffer(H, f, g, i);
  }

  lemma RootsApart(H: Hasher, c: Checks, txs: seq<Tx>)
    requires H.CollisionFree() && Usable(c, txs)
    ensures forall k :: 0 <= k < 3 ==> WellFormed(Repeating(H, txs).faces[k])
    ensures Distinct(Roots(H, Repeating(H, txs).faces))
  {
    NotIn(H, c, txs, 0, 1, 1);
    NotIn(H, c, txs, 0, 1, 2);
    NotIn(H, c, txs, 1, 0, 2);
    hide WellFormed, Root, FaceFor, Usable;
    var p := Repeating(H, txs);
    assert p.faces == [FaceFor(H, txs, 0), FaceFor(H, txs, 1), FaceFor(H, txs, 2)];
  }

  /** Any such transactions make a payload that verification accepts although a hash occurs in two of its faces. */
  lemma RepeatingIsAccepted(H: Hasher, c: Checks, txs: seq<Tx>)
    requires H.CollisionFree() && Usable(c, txs)
    ensures Acceptable(H, c, Repeating(H, txs), None) && !Distinct(AllHashes(Repeating(H, txs)))
  {
    var p := Repeating(H, txs);
    forall k | 0 <= k < 3
      ensures WellFormed(p.faces[k]) && Claimless(p.faces[k]) && SoundFace(H, c, p.faces[k])
      ensures Passes(c.shapeOk, p.faces[k]) && Passes(c.sigOk, p.faces[k])
    {
      FaceIsGood(H, c, txs, k);
    }
    RootsApart(H, c, txs);
    FirstRepeats(H, c, txs);
    hide WellFormed, SoundFace, Passes, Claimless, Root, Usable, Repeating, Legal, AllHashes;
    ClaimlessIsLegal(H, p);
  }

  lemma FirstRepeats(H: Hasher, c: Checks, txs: seq<Tx>)
    requires H.CollisionFree() && Usable(c, txs)
    ensures var p := Repeating(H, txs);
      (forall k :: 0 <= k < 3 ==> AllHashed(p.faces[k])) && !Distinct(AllHashes(p))
  {
    var p := Repeating(H, txs);
    FaceIsGood(H, c, txs, 0);
    FaceIsGood(H, c, txs, 1);
    FaceIsGood(H, c, txs, 2);
    hide SoundFace, Passes, Claimless, Usable, FaceFor;
    assert AllHashes(p)[0] == AllHashes(p)[18];
  }

  /** Adopted into an empty store, it is not served. */
  lemma RepeatingIsNotServed(H: Hasher, c: Checks, txs: seq<Tx>, cubeSeq: nat)
    requires H.CollisionFree() && Usable(c, txs)
    ensures Acceptable(H, c, Repeating(H, txs), None)
    ensures Rebuild(PutAll(H, [], AllRows(H, Repeating(H, txs), cubeSeq)), VerdictOn(H, Repeating(H, txs)).id).None?
  {
    hide PutAll, Rebuild, AllRows, Repeating, Legal, SoundFace, Passes, CubeIdOf, CubeRootOf;
    RepeatingIsAccepted(H, c, txs);
    AdoptedCubeIsServed(H, c, Repeating(H, txs), [], cubeSeq);
  }

  function Numbered26(): (r: seq<Tx>)
    ensures |r| == 26
  {
    seq(26, i requires 0 <= i < 26 => Tx(Other, Some(i), None, None, 0, 0))
  }

  /** Such transactions exist for checks that let everything pass. */
  lemma PermissiveRepeats(H: Hasher, c: Checks, cubeSeq: nat)
    requires H.CollisionFree() && forall tx :: Fine(c, tx)
    ensures Acceptable(H, c, Repeating(H, Numbered26()), None)
    ensures Rebuild(PutAll(H, [], AllRows(H, Repeating(H, Numbered26()), cubeSeq)),
      VerdictOn(H, Repeating(H, Numbered26())).id).None?
  {
    hide PutAll, Rebuild, AllRows, Repeating, Legal, SoundFace, Passes, CubeIdOf, CubeRootOf;
    assert Usable(c, Numbered26());
    RepeatingIsNotServed(H, c, Numbered26(), cubeSeq);
  }
}
