/** Fetched cubes: what makes one acceptable, why nobody has to be trusted for it, and what adopting it writes. */
module CubeSync {
  import opened Ordering
  import opened JsMap
  import opened Hashing
  import opened PlacementCheck

  datatype Payload = Payload(faces: seq<WireFace>, merkleRoot: Option<Hash>)

  /** Checks of the member transactions that lie outside the ledger: the xid's proof, and two that a caller may add. */
  datatype Checks = Checks(xidOk: Tx -> bool, shapeOk: Option<Tx -> bool>, sigOk: Option<Tx -> bool>)

  datatype Refusal = NotThreeFaces | FaceNotNine | BadHash | NoTx | HashMismatch | BadXid | FaceRootMismatch |
    BadPlacement
                   | WrongId | RootMismatch | BadShape | BadSignature
  datatype Verdict = Rejected(why: Refusal) | Verified(id: Short, root: Hash, faceRoots: seq<Hash>)

  // ---- what is acceptable ----

  /** A block carries the hash of its own transaction, and the transaction passes its xid. */
  predicate Sound(H: Hasher, c: Checks, b: WireBlock) {
    b.hash.Some? && b.tx.Some? && TxHash(H, b.tx.value) == b.hash && c.xidOk(b.tx.value)
  }

  predicate SoundFace(H: Hasher, c: Checks, f: WireFace) {
    && |f.blocks| == FACE_SIZE
    && (forall i :: 0 <= i < |f.blocks| ==> Sound(H, c, f.blocks[i]))
    && (f.merkleRoot.Some? ==> f.merkleRoot.value == FaceRootOf(H, Keys(f)))
  }

  predicate Passes(check: Option<Tx -> bool>, f: WireFace)
    requires forall i :: 0 <= i < |f.blocks| ==> f.blocks[i].tx.Some?
  {
    check.Some? ==> forall i :: 0 <= i < |f.blocks| ==> check.value(f.blocks[i].tx.value)
  }

  ghost predicate Acceptable(H: Hasher, c: Checks, p: Payload, expected: Option<Short>) {
    && |p.faces| == CUBE_SLOTS
    && (forall i :: 0 <= i < |p.faces| ==> SoundFace(H, c, p.faces[i]))
    && Legal(H, p.faces)
    && (expected.Some? ==> CubeIdOf(H, Roots(H, p.faces)) == expected.value)
    && (p.merkleRoot.Some? ==> p.merkleRoot.value == CubeRootOf(H, Roots(H, p.faces)))
    && (forall i :: 0 <= i < |p.faces| ==> Passes(c.shapeOk, p.faces[i]))
    && (forall i :: 0 <= i < |p.faces| ==> Passes(c.sigOk, p.faces[i]))
  }

  // ---- what a refusal says ----

  ghost predicate SomeTxFails(check: Tx -> bool, f: WireFace) {
    exists j :: 0 <= j < |f.blocks| && f.blocks[j].tx.Some? && !check(f.blocks[j].tx.value)
  }

  /** What is wrong with a face that is refused for this reason. */
  ghost predicate FaultyFace(H: Hasher, c: Checks, f: WireFace, why: Refusal) {
    match why
    case FaceNotNine => |f.blocks| != 9
    case BadHash => exists j :: 0 <= j < |f.blocks| && f.blocks[j].hash.None?
    case NoTx => exists j :: 0 <= j < |f.blocks| && f.blocks[j].tx.None?
    case HashMismatch =>
      exists j :: 0 <= j < |f.blocks| && f.blocks[j].tx.Some? && TxHash(H, f.blocks[j].tx.value) != f.blocks[j].hash
    case BadXid => SomeTxFails(c.xidOk, f)
    case FaceRootMismatch =>
      AllHashed(f) && |f.blocks| == 9 && f.merkleRoot.Some? && f.merkleRoot.value != FaceRootOf(H, Keys(f))
    case BadShape => c.shapeOk.Some? && SomeTxFails(c.shapeOk.value, f)
    case BadSignature => c.sigOk.Some? && SomeTxFails(c.sigOk.value, f)
    case _ => false
  }

  /** A refusal about one face and its blocks. */
  predicate OfFace(why: Refusal) {
    why.FaceNotNine? || why.BadHash? || why.NoTx? || why.HashMismatch? || why.BadXid? || why.FaceRootMismatch?
  }

  lemma TxFault(H: Hasher, c: Checks, p: Payload, expected: Option<Short>, check: Tx -> bool, why: Refusal)
    requires (why.BadShape? && c.shapeOk == Some(check)) || (why.BadSignature? && c.sigOk == Some(check))
    requires exists i :: 0 <= i < |p.faces| && SomeTxFails(check, p.faces[i])
    ensures Faulty(H, c, p, expected, why)
  {
    var i :| 0 <= i < |p.faces| && SomeTxFails(check, p.faces[i]);
    assert FaultyFace(H, c, p.faces[i], why);
  }

  /** What is wrong with a payload that is refused for this reason. */
  ghost predicate Faulty(H: Hasher, c: Checks, p: Payload, expected: Option<Short>, why: Refusal) {
    match why
    case NotThreeFaces => |p.faces| != 3
    case BadPlacement => !Legal(H, p.faces)
    case WrongId => Legal(H, p.faces) && |p.faces| == 3 && expected.Some? &&
      CubeIdOf(H, Roots(H, p.faces)) != expected.value
    case RootMismatch =>
      Legal(H, p.faces) && |p.faces| == 3 && p.merkleRoot.Some? &&
        CubeRootOf(H, Roots(H, p.faces)) != p.merkleRoot.value
    case _ => exists i :: 0 <= i < |p.faces| && FaultyFace(H, c, p.faces[i], why)
  }

  // ---- verification as it runs ----

  method CheckBlocks(H: Hasher, c: Checks, f: WireFace) returns (why: Option<Refusal>, hashes: seq<Hash>)
    ensures why.None? <==> forall i :: 0 <= i < |f.blocks| ==> Sound(H, c, f.blocks[i])
    ensures why.None? ==> AllHashed(f) && hashes == Keys(f)
    ensures why.Some? ==> FaultyFace(H, c, f, why.value) && OfFace(why.value)
  {
    hashes := [];
    var i := 0;
    while i < |f.blocks|
      invariant 0 <= i <= |f.blocks| && |hashes| == i
      invariant forall j :: 0 <= j < i ==> Sound(H, c, f.blocks[j]) && hashes[j] == f.blocks[j].hash.value
    {
      var b := f.blocks[i];
      if b.hash.None? { return Some(BadHash), hashes; }
      if b.tx.None? { return Some(NoTx), hashes; }
      if TxHash(H, b.tx.value) != b.hash { return Some(HashMismatch), hashes; }
      if !c.xidOk(b.tx.value) { return Some(BadXid), hashes; }
      hashes := hashes + [b.hash.value];
      i := i + 1;
    }
    return None, hashes;
  }

  method CheckFaces(H: Hasher, c: Checks, faces: seq<WireFace>) returns (why: Option<Refusal>, roots: seq<Hash>)
    ensures why.None? <==> forall i :: 0 <= i < |faces| ==> SoundFace(H, c, faces[i])
    ensures why.None? ==> |roots| == |faces| && forall i :: 0 <= i < |faces| ==>
      roots[i] == FaceRootOf(H, Keys(faces[i]))
    ensures why.Some? ==> OfFace(why.value)
    ensures why.Some? ==> exists i :: 0 <= i < |faces| && FaultyFace(H, c, faces[i], why.value)
  {
    roots := [];
    var i := 0;
    while i < |faces|
      invariant 0 <= i <= |faces| && |roots| == i
      invariant forall j :: 0 <= j < i ==> SoundFace(H, c, faces[j]) && roots[j] == FaceRootOf(H, Keys(faces[j]))
    {
      if |faces[i].blocks| != FACE_SIZE { return Some(FaceNotNine), roots; }
      var bad, hashes := CheckBlocks(H, c, faces[i]);
      if bad.Some? { return bad, roots; }
      var root := FaceRootOf(H, hashes);
      if faces[i].merkleRoot.Some? && faces[i].merkleRoot.value != root { return Some(FaceRootMismatch), roots; }
      roots := roots + [root];
      i := i + 1;
    }
    return None, roots;
  }

  method CheckTxs(check: Tx -> bool, faces: seq<WireFace>) returns (ok: bool)
    requires forall i, j :: 0 <= i < |faces| && 0 <= j < |faces[i].blocks| ==> faces[i].blocks[j].tx.Some?
    ensures ok <==> forall i :: 0 <= i < |faces| ==> Passes(Some(check), faces[i])
    ensures !ok ==> exists i :: 0 <= i < |faces| && SomeTxFails(check, faces[i])
  {
    var i := 0;
    while i < |faces|
      invariant 0 <= i <= |faces|
      invariant forall k :: 0 <= k < i ==> Passes(Some(check), faces[k])
    {
      var j := 0;
      while j < |faces[i].blocks|
        invariant 0 <= j <= |faces[i].blocks|
        invariant forall k :: 0 <= k < j ==> check(faces[i].blocks[k].tx.value)
      {
        if !check(faces[i].blocks[j].tx.value) { return false; }
        j := j + 1;
      }
      i := i + 1;
    }
    return true;
  }

  /** The member stands under the hash of its own transaction, which passed every check that was asked for. */
  ghost predicate Vetted(H: Hasher, c: Checks, b: WireBlock) {
    && b.hash.Some? && b.tx.Some? && TxHash(H, b.tx.value) == b.hash && c.xidOk(b.tx.value)
    && (c.shapeOk.Some? ==> c.shapeOk.value(b.tx.value)) && (c.sigOk.Some? ==> c.sigOk.value(b.tx.value))
  }

  /** What a verdict vouches for: the id that was asked for and the roots that were claimed, if any were, and every
      member vetted. */
  ghost predicate VouchesFor(H: Hasher, c: Checks, p: Payload, expected: Option<Short>, v: Verdict) {
    && v.Verified? && |p.faces| == |v.faceRoots| == 3
    && (expected.Some? ==> v.id == expected.value)
    && (p.merkleRoot.Some? ==> v.root == p.merkleRoot.value)
    && (forall i :: 0 <= i < 3 && p.faces[i].merkleRoot.Some? ==> v.faceRoots[i] == p.faces[i].merkleRoot.value)
    && (forall i, j :: 0 <= i < 3 && 0 <= j < |p.faces[i].blocks| ==> Vetted(H, c, p.faces[i].blocks[j]))
  }

  lemma AcceptedIsVouched(H: Hasher, c: Checks, p: Payload, expected: Option<Short>)
    requires Acceptable(H, c, p, expected)
    ensures VouchesFor(H, c, p, expected, VerdictOn(H, p))
  {
    hide CubeIdOf, CubeRootOf, FaceRootOf, PositionsAgree, IndexAgrees;
    forall i, j | 0 <= i < 3 && 0 <= j < |p.faces[i].blocks| ensures Vetted(H, c, p.faces[i].blocks[j]) {
      assert SoundFace(H, c, p.faces[i]) && Sound(H, c, p.faces[i].blocks[j]);
      assert Passes(c.shapeOk, p.faces[i]) && Passes(c.sigOk, p.faces[i]);
    }
    forall i | 0 <= i < 3 && p.faces[i].merkleRoot.Some? ensures Roots(H, p.faces)[i] == p.faces[i].merkleRoot.value {
      assert SoundFace(H, c, p.faces[i]);
    }
  }

  /** A payload is accepted exactly when it is acceptable, under the id its own content determines, which is the one
      asked for; a refusal names something wrong. */
  method VerifyCube(H: Hasher, c: Checks, p: Payload, expected: Option<Short>) returns (v: Verdict)
    ensures v.Verified? <==> Acceptable(H, c, p, expected)
    ensures v.Verified? ==> v == VerdictOn(H, p)
    ensures v.Verified? && expected.Some? ==> v.id == expected.value
    ensures v.Verified? ==> VouchesFor(H, c, p, expected, v)
    ensures v.Rejected? ==> Faulty(H, c, p, expected, v.why)
  {
    v := JudgeCube(H, c, p, expected);
    if v.Verified? { AcceptedIsVouched(H, c, p, expected); }
  }

  method JudgeCube(H: Hasher, c: Checks, p: Payload, expected: Option<Short>) returns (v: Verdict)
    ensures v.Verified? <==> Acceptable(H, c, p, expected)
    ensures v.Verified? ==> v == VerdictOn(H, p)
    ensures v.Rejected? ==> Faulty(H, c, p, expected, v.why)
  {
    hide Misplaced, AnswerRight, FaultyFace, CubeIdOf, CubeRootOf, Passes, FaceRootOf;
    if |p.faces| != CUBE_SLOTS { return Rejected(NotThreeFaces); }
    var bad, roots := CheckFaces(H, c, p.faces);
    if bad.Some? { return Rejected(bad.value); }
    var placed := VerifyPlacement(H, p.faces);
    if placed.Refused? { return Rejected(BadPlacement); }
    assert roots == Roots(H, p.faces);
    v := JudgeClaims(H, c, p, expected, roots);
  }

  /** The id asked for, the claimed root, and the checks a caller adds. */
  method JudgeClaims(H: Hasher, c: Checks, p: Payload, expected: Option<Short>, roots: seq<Hash>) returns (v: Verdict)
    requires |p.faces| == CUBE_SLOTS && Legal(H, p.faces) && roots == Roots(H, p.faces)
    requires forall i, j :: 0 <= i < 3 && 0 <= j < |p.faces[i].blocks| ==> p.faces[i].blocks[j].tx.Some?
    ensures v.Verified? <==>
      && (expected.Some? ==> CubeIdOf(H, roots) == expected.value)
      && (p.merkleRoot.Some? ==> p.merkleRoot.value == CubeRootOf(H, roots))
      && (forall i :: 0 <= i < |p.faces| ==> Passes(c.shapeOk, p.faces[i]))
      && (forall i :: 0 <= i < |p.faces| ==> Passes(c.sigOk, p.faces[i]))
    ensures v.Verified? ==> v == VerdictOn(H, p)
    ensures v.Rejected? ==> Faulty(H, c, p, expected, v.why)
  {
    hide FaultyFace, SomeTxFails, CubeIdOf, CubeRootOf, PositionsAgree, IndexAgrees;
    var id := CubeIdOf(H, roots);
    if expected.Some? && id != expected.value { return Rejected(WrongId); }
    var root := CubeRootOf(H, roots);
    if p.merkleRoot.Some? && p.merkleRoot.value != root { return Rejected(RootMismatch); }
    if c.shapeOk.Some? {
      var ok := CheckTxs(c.shapeOk.value, p.faces);
      if !ok {
        TxFault(H, c, p, expected, c.shapeOk.value, BadShape);
        return Rejected(BadShape);
      }
    }
    if c.sigOk.Some? {
      var ok := CheckTxs(c.sigOk.value, p.faces);
      if !ok {
        TxFault(H, c, p, expected, c.sigOk.value, BadSignature);
        return Rejected(BadSignature);
      }
    }
    return Verified(id, root, roots);
  }

  function VerdictOn(H: Hasher, p: Payload): Verdict
    requires |p.faces| == CUBE_SLOTS && forall i :: 0 <= i < |p.faces| ==> WellFormed(p.faces[i])
  {
    Verified(CubeIdOf(H, Roots(H, p.faces)), CubeRootOf(H, Roots(H, p.faces)), Roots(H, p.faces))
  }

  /** What verifies when nothing is asked for verifies under its own id and under no other. */
  lemma OwnIdOnly(H: Hasher, c: Checks, p: Payload, e: Short)
    requires Acceptable(H, c, p, None)
    ensures Acceptable(H, c, p, Some(e)) <==> e == VerdictOn(H, p).id
  {
  }

  // ---- cubes certify themselves ----

  function BodyOf(b: WireBlock): Option<ConsensusBody> { if b.tx.Some? then ConsensusBodyOf(b.tx.value) else None }

  ghost predicate Holds(g: WireFace, b: WireBlock) {
    exists j :: 0 <= j < |g.blocks| && g.blocks[j].hash == b.hash && BodyOf(g.blocks[j]) == BodyOf(b)
  }

  /** Every block of f appears in g, with the same hash and the same consensus body. */
  ghost predicate FaceWithin(f: WireFace, g: WireFace) { forall i :: 0 <= i < |f.blocks| ==> Holds(g, f.blocks[i]) }

  ghost predicate SameFace(f: WireFace, g: WireFace) { FaceWithin(f, g) && FaceWithin(g, f) }

  ghost predicate HasFace(q: Payload, f: WireFace) { exists j :: 0 <= j < |q.faces| && SameFace(f, q.faces[j]) }

  ghost predicate FacesWithin(p: Payload, q: Payload) { forall i :: 0 <= i < |p.faces| ==> HasFace(q, p.faces[i]) }

  /** The same three sets of nine blocks, whatever their order. */
  ghost predicate SameContent(p: Payload, q: Payload) { FacesWithin(p, q) && FacesWithin(q, p) }

  lemma SameHashSameBody(H: Hasher, c: Checks, d: Checks, a: WireBlock, b: WireBlock)
    requires H.CollisionFree() && Sound(H, c, a) && Sound(H, d, b) && a.hash == b.hash
    ensures BodyOf(a) == BodyOf(b)
  {
    var x, y := ConsensusBodyOf(a.tx.value).value, ConsensusBodyOf(b.tx.value).value;
    assert Body(x) == Body(y);
  }

  lemma SameRootSameFace(H: Hasher, c: Checks, d: Checks, f: WireFace, g: WireFace)
    requires H.CollisionFree() && SoundFace(H, c, f) && SoundFace(H, d, g) && WellFormed(f) && WellFormed(g)
    ensures Root(H, f) == Root(H, g) <==> SameFace(f, g)
  {
    FaceRootBinds(H, Keys(f), Keys(g));
    hide FaceWithin, FaceRootOf;
    if multiset(Keys(f)) == multiset(Keys(g)) {
      KeysWithin(H, c, d, f, g);
      KeysWithin(H, d, c, g, f);
    }
    if SameFace(f, g) { SameKeys(f, g); }
  }

  lemma KeysWithin(H: Hasher, c: Checks, d: Checks, f: WireFace, g: WireFace)
    requires H.CollisionFree() && SoundFace(H, c, f) && SoundFace(H, d, g)
    requires multiset(Keys(f)) == multiset(Keys(g))
    ensures FaceWithin(f, g)
  {
    forall i | 0 <= i < |f.blocks| ensures Holds(g, f.blocks[i]) {
      var j := FindIn(Keys(f), Keys(g), i);
      assert Sound(H, c, f.blocks[i]) && Sound(H, d, g.blocks[j]);
      SameHashSameBody(H, c, d, f.blocks[i], g.blocks[j]);
    }
  }

  lemma SameKeys(f: WireFace, g: WireFace)
    requires SameFace(f, g) && WellFormed(f) && WellFormed(g)
    ensures multiset(Keys(f)) == multiset(Keys(g))
  {
    WithinKeys(f, g);
    WithinKeys(g, f);
    DistinctMultiset(Keys(f));
    DistinctMultiset(Keys(g));
    assert Elements(Keys(f)) == Elements(Keys(g));
  }

  lemma WithinKeys(f: WireFace, g: WireFace)
    requires FaceWithin(f, g) && AllHashed(f) && AllHashed(g)
    ensures Elements(Keys(f)) <= Elements(Keys(g))
  {
    forall h | h in Keys(f) ensures h in Keys(g) {
      var i :| 0 <= i < |Keys(f)| && Keys(f)[i] == h;
      assert Holds(g, f.blocks[i]);
      var j :| 0 <= j < |g.blocks| && g.blocks[j].hash == f.blocks[i].hash;
      assert Keys(g)[j] == h;
    }
  }

  /** Cubes are self-certifying: two payloads accepted under one id hold the same content, wherever they came from and
      whatever else was checked; and the same content always gets the same id. */
  lemma SelfCertifying(H: Hasher, c: Checks, d: Checks, p: Payload, q: Payload)
    requires H.CollisionFree() && Acceptable(H, c, p, None) && Acceptable(H, d, q, None)
    ensures VerdictOn(H, p).id == VerdictOn(H, q).id <==> SameContent(p, q)
  {
    hide SameFace, FacesWithin, RootsAreFaces, CubeIdOf, CubeRootOf, IndexAgrees, PositionsAgree;
    var r, s := Roots(H, p.faces), Roots(H, q.faces);
    CubeIdBinds(H, r, s);
    RootsMatchFaces(H, c, d, p, q);
    RootsMatchFaces(H, d, c, q, p);
    RootsDecide(p, q, r, s);
  }

  lemma RootsDecide(p: Payload, q: Payload, r: seq<Hash>, s: seq<Hash>)
    requires RootsAreFaces(p, q, r, s) && RootsAreFaces(q, p, s, r) && Distinct(r) && Distinct(s)
    ensures multiset(r) == multiset(s) <==> SameContent(p, q)
  {
    hide SameFace, FacesWithin, RootsAreFaces;
    if multiset(r) == multiset(s) {
      MatchedFaces(p, q, r, s);
      MatchedFaces(q, p, s, r);
    }
    if SameContent(p, q) {
      MatchedRoots(p, q, r, s);
      MatchedRoots(q, p, s, r);
      DistinctMultiset(r);
      DistinctMultiset(s);
      assert Elements(r) == Elements(s);
    }
  }

  ghost predicate RootsAreFaces(p: Payload, q: Payload, r: seq<Hash>, s: seq<Hash>) {
    && |p.faces| == |r| && |q.faces| == |s|
    && forall i, j :: 0 <= i < |r| && 0 <= j < |s| ==> (r[i] == s[j] <==> SameFace(p.faces[i], q.faces[j]))
  }

  lemma RootsMatchFaces(H: Hasher, c: Checks, d: Checks, p: Payload, q: Payload)
    requires H.CollisionFree() && Acceptable(H, c, p, None) && Acceptable(H, d, q, None)
    ensures RootsAreFaces(p, q, Roots(H, p.faces), Roots(H, q.faces))
  {
    hide SameFace;
    var r, s := Roots(H, p.faces), Roots(H, q.faces);
    forall i, j | 0 <= i < |r| && 0 <= j < |s| ensures r[i] == s[j] <==> SameFace(p.faces[i], q.faces[j]) {
      SameRootSameFace(H, c, d, p.faces[i], q.faces[j]);
    }
  }

  lemma MatchedFaces(p: Payload, q: Payload, r: seq<Hash>, s: seq<Hash>)
    requires RootsAreFaces(p, q, r, s) && multiset(r) == multiset(s)
    ensures FacesWithin(p, q)
  {
    hide SameFace;
    forall i | 0 <= i < |p.faces| ensures HasFace(q, p.faces[i]) {
      var j := FindIn(r, s, i);
      assert SameFace(p.faces[i], q.faces[j]);
    }
  }

  lemma MatchedRoots(p: Payload, q: Payload, r: seq<Hash>, s: seq<Hash>)
    requires RootsAreFaces(p, q, r, s) && FacesWithin(p, q)
    ensures Elements(r) <= Elements(s)
  {
    hide SameFace;
    forall x | x in r ensures x in s {
      var i :| 0 <= i < |r| && r[i] == x;
      assert HasFace(q, p.faces[i]);
      var j :| 0 <= j < |q.faces| && SameFace(p.faces[i], q.faces[j]);
      assert s[j] == x;
    }
  }

  lemma FindIn(a: seq<Hash>, b: seq<Hash>, i: nat) returns (j: nat)
    requires multiset(a) == multiset(b) && i < |a|
    ensures j < |b| && a[i] == b[j]
  {
    assert a[i] in multiset(a);
    assert a[i] in b;
    j :| 0 <= j < |b| && b[j] == a[i];
  }

  // ---- the adoption plan ----

  datatype Loc = Loc(faceIndex: nat, position: nat, cubeId: Short, cubeSeq: nat, level: nat)
  datatype Row = Row(hash: Hash, tx: Tx, loc: Option<Loc>)
  datatype Plan = Skip | Adopt(id: Short, root: Hash, rows: seq<Row>, evict: seq<Hash>)

  function HashOf(b: WireBlock): nat { if b.hash.Some? then b.hash.value else 0 }

  ghost predicate Complete(f: WireFace) {
    forall i :: 0 <= i < |f.blocks| ==> f.blocks[i].hash.Some? && f.blocks[i].tx.Some?
  }

  lemma SortedComplete(f: WireFace)
    requires Complete(f)
    ensures var s := SortBy(HashOf, f.blocks);
      |s| == |f.blocks| && forall i :: 0 <= i < |s| ==> s[i].hash.Some? && s[i].tx.Some?
  {
    SortBySorts(HashOf, f.blocks);
    var s := SortBy(HashOf, f.blocks);
    forall i | 0 <= i < |s| ensures s[i].hash.Some? && s[i].tx.Some? {
      assert s[i] in multiset(s);
      assert s[i] in f.blocks;
    }
  }

  /** A face's rows: its blocks by hash, each at its rank. */
  function FaceRows(f: WireFace, faceIndex: nat, id: Short, cubeSeq: nat): (r: seq<Row>)
    requires Complete(f)
    ensures |r| == |f.blocks|
  {
    SortedComplete(f);
    var s := SortBy(HashOf, f.blocks);
    seq(|s|, i requires 0 <= i < |s| => Row(s[i].hash.value, s[i].tx.value, Some(Loc(faceIndex, i, id, cubeSeq, 1))))
  }

  function FaceRank(H: Hasher, p: Payload, i: nat): (r: nat)
    requires i < |p.faces| && forall j :: 0 <= j < |p.faces| ==> WellFormed(p.faces[j])
  {
    IndexOf(Sort(Roots(H, p.faces)), Roots(H, p.faces)[i])
  }

  /** The rows of the first n faces, in payload order. */
  function PlanRows(H: Hasher, p: Payload, id: Short, cubeSeq: nat, n: nat): seq<Row>
    requires n <= |p.faces| && forall j :: 0 <= j < |p.faces| ==> WellFormed(p.faces[j]) && Complete(p.faces[j])
  {
    if n == 0 then []
    else PlanRows(H, p, id, cubeSeq, n - 1) + FaceRows(p.faces[n - 1], FaceRank(H, p, n - 1), id, cubeSeq)
  }

  function RowHash(r: Row): Hash { r.hash }

  function RowHashes(rows: seq<Row>): seq<Hash> { KeysOf(RowHash, rows) }

  method PlanFace(f: WireFace, faceIndex: nat, id: Short, cubeSeq: nat, pool: seq<Hash>)
      returns (rows: seq<Row>, evict: seq<Hash>)
    requires Complete(f)
    ensures rows == FaceRows(f, faceIndex, id, cubeSeq)
    ensures evict == Within(RowHashes(rows), pool)
  {
    SortedComplete(f);
    var ordered := SortBy(HashOf, f.blocks);
    ghost var all := FaceRows(f, faceIndex, id, cubeSeq);
    rows, evict := [], [];
    var i := 0;
    while i < |ordered|
      invariant 0 <= i <= |ordered|
      invariant rows == all[..i]
      invariant evict == Within(RowHashes(rows), pool)
    {
      var b := ordered[i];
      ghost var was := RowHashes(rows);
      rows := rows + [Row(b.hash.value, b.tx.value, Some(Loc(faceIndex, i, id, cubeSeq, 1)))];
      assert RowHashes(rows) == was + [b.hash.value];
      WithinStep(was, b.hash.value, pool);
      if b.hash.value in pool { evict := evict + [b.hash.value]; }
      i := i + 1;
    }
    assert all[..i] == all;
  }

  lemma WithinStep(s: seq<Hash>, x: Hash, ids: seq<Hash>)
    ensures Within(s + [x], ids) == Within(s, ids) + (if x in ids then [x] else [])
  {
    KeepAppend(s, [x], y => y in ids);
    KeepStep([x], y => y in ids);
    assert [x][1..] == [];
  }

  lemma WithinAppend(a: seq<Hash>, b: seq<Hash>, ids: seq<Hash>)
    ensures Within(a + b, ids) == Within(a, ids) + Within(b, ids)
  {
    KeepAppend(a, b, y => y in ids);
  }

  // ---- what a plan says ----

  /** The row block j of face i must get: under its hash, at the ranks of its face's root and of its hash. */
  function RowFor(H: Hasher, p: Payload, i: nat, j: nat, id: Short, cubeSeq: nat): Row
    requires i < |p.faces| && forall k :: 0 <= k < |p.faces| ==> WellFormed(p.faces[k]) && Complete(p.faces[k])
    requires j < |p.faces[i].blocks|
  {
    assert Complete(p.faces[i]);
    var b, roots := p.faces[i].blocks[j], Roots(H, p.faces);
    Row(b.hash.value, b.tx.value,
      Some(Loc(Below(roots, roots[i]), Below(Keys(p.faces[i]), b.hash.value), id, cubeSeq, 1)))
  }

  lemma FaceRowAt(f: WireFace, faceIndex: nat, id: Short, cubeSeq: nat, j: nat)
    requires WellFormed(f) && Complete(f) && j < |f.blocks|
    ensures Row(f.blocks[j].hash.value, f.blocks[j].tx.value,
              Some(Loc(faceIndex, Below(Keys(f), f.blocks[j].hash.value), id, cubeSeq, 1))) in FaceRows(f, faceIndex,
                id, cubeSeq)
  {
    var s, keys := SortBy(HashOf, f.blocks), Keys(f);
    SortedComplete(f);
    SortBySorts(HashOf, f.blocks);
    SortByKeys(HashOf, f.blocks);
    assert KeysOf(HashOf, f.blocks) == keys;
    assert f.blocks[j] in multiset(s);
    var k :| 0 <= k < |s| && s[k] == f.blocks[j];
    SortDistinct(keys);
    SortElements(keys);
    assert keys[j] in keys && Sort(keys)[k] == keys[j];
    IndexOfIs(Sort(keys), keys[j], k);
    RankCounts(keys, keys[j]);
    assert FaceRows(f, faceIndex, id, cubeSeq)[k].hash == keys[j];
  }

  lemma {:induction false} PlanRowAt(H: Hasher, p: Payload, id: Short, cubeSeq: nat, n: nat, i: nat, j: nat)
    requires |p.faces| == 3 && forall k :: 0 <= k < |p.faces| ==> WellFormed(p.faces[k]) && Complete(p.faces[k])
    requires Distinct(Roots(H, p.faces)) && i < n <= 3 && j < |p.faces[i].blocks|
    ensures RowFor(H, p, i, j, id, cubeSeq) in PlanRows(H, p, id, cubeSeq, n)
  {
    hide FaceRows, WellFormed, Complete;
    if i < n - 1 {
      PlanRowAt(H, p, id, cubeSeq, n - 1, i, j);
    } else {
      var roots := Roots(H, p.faces);
      assert roots[i] in roots;
      RankCounts(roots, roots[i]);
      FaceRowAt(p.faces[i], FaceRank(H, p, i), id, cubeSeq, j);
    }
  }

  lemma FaceRowsFrom(p: Payload, i: nat, faceIndex: nat, id: Short, cubeSeq: nat)
    requires i < |p.faces| && WellFormed(p.faces[i]) && Complete(p.faces[i])
    ensures |FaceRows(p.faces[i], faceIndex, id, cubeSeq)| == 9
    ensures forall r | r in FaceRows(p.faces[i], faceIndex, id, cubeSeq) :: IsMember(p, r.hash)
  {
    var f := p.faces[i];
    var s := SortBy(HashOf, f.blocks);
    SortedComplete(f);
    SortBySorts(HashOf, f.blocks);
    forall k | 0 <= k < |s| ensures IsMember(p, s[k].hash.value) {
      assert s[k] in multiset(s);
      assert s[k] in f.blocks;
      var j :| 0 <= j < |f.blocks| && f.blocks[j] == s[k];
      assert p.faces[i].blocks[j].hash == Some(s[k].hash.value);
    }
    hide IsMember, SortBy;
  }

  lemma {:induction false} PlanRowsFrom(H: Hasher, p: Payload, id: Short, cubeSeq: nat, n: nat)
    requires n <= |p.faces| && forall k :: 0 <= k < |p.faces| ==> WellFormed(p.faces[k]) && Complete(p.faces[k])
    ensures |PlanRows(H, p, id, cubeSeq, n)| == 9 * n
    ensures forall r | r in PlanRows(H, p, id, cubeSeq, n) :: IsMember(p, r.hash)
  {
    hide FaceRows, IsMember, FaceRank, WellFormed, Complete;
    if n > 0 {
      PlanRowsFrom(H, p, id, cubeSeq, n - 1);
      FaceRowsFrom(p, n - 1, FaceRank(H, p, n - 1), id, cubeSeq);
    }
  }

  ghost predicate IsMember(p: Payload, h: Hash) {
    exists i, j :: 0 <= i < |p.faces| && 0 <= j < |p.faces[i].blocks| && p.faces[i].blocks[j].hash == Some(h)
  }

  /** A plan writes one row for each of the 27 members, at its place, and names exactly the pooled members for
      eviction. */
  ghost predicate PlanRight(H: Hasher, p: Payload, pool: seq<Hash>, nextSeq: nat, plan: Plan)
    requires |p.faces| == 3 && forall j :: 0 <= j < |p.faces| ==> WellFormed(p.faces[j]) && Complete(p.faces[j])
  {
    && plan.Adopt? && plan.id == VerdictOn(H, p).id && plan.root == VerdictOn(H, p).root
    && |plan.rows| == 27
    && (forall i, j :: 0 <= i < 3 && 0 <= j < 9 ==> RowFor(H, p, i, j, plan.id, nextSeq) in plan.rows)
    && (forall h :: h in plan.evict <==> h in pool && IsMember(p, h))
  }

  lemma PlanIsRight(H: Hasher, p: Payload, have: set<Short>, pool: seq<Hash>, nextSeq: nat)
    requires |p.faces| == 3 && forall j :: 0 <= j < |p.faces| ==> WellFormed(p.faces[j]) && Complete(p.faces[j])
    requires Distinct(Roots(H, p.faces)) && VerdictOn(H, p).id !in have
    ensures PlanRight(H, p, pool, nextSeq, PlanFor(H, p, have, pool, nextSeq))
  {
    hide PlanRows, FaceRows, CubeIdOf, CubeRootOf;
    var id := VerdictOn(H, p).id;
    var rows := PlanRows(H, p, id, nextSeq, 3);
    PlanRowsFrom(H, p, id, nextSeq, 3);
    forall i, j | 0 <= i < 3 && 0 <= j < 9 ensures RowFor(H, p, i, j, id, nextSeq) in rows {
      assert |p.faces[i].blocks| == 9;
      PlanRowAt(H, p, id, nextSeq, 3, i, j);
    }
    WithinElements(RowHashes(rows), pool);
    forall h ensures h in RowHashes(rows) <==> IsMember(p, h) {
      if h in RowHashes(rows) { var k :| 0 <= k < |rows| && RowHashes(rows)[k] == h; assert rows[k] in rows; }
      if IsMember(p, h) {
        var i, j :| 0 <= i < |p.faces| && 0 <= j < |p.faces[i].blocks| && p.faces[i].blocks[j].hash == Some(h);
        assert |p.faces[i].blocks| == 9 && RowFor(H, p, i, j, id, nextSeq) in rows;
        var k :| 0 <= k < |rows| && rows[k] == RowFor(H, p, i, j, id, nextSeq);
        assert RowHashes(rows)[k] == h;
      }
    }
  }

  /** A held cube is skipped; otherwise every member gets the row its rank determines, and the members still in the
      local pool are named for eviction. */
  method PlanAdoption(H: Hasher, v: Verdict, p: Payload, have: set<Short>, pool: seq<Hash>, nextSeq: nat)
      returns (plan: Plan)
    requires |p.faces| == CUBE_SLOTS &&
      forall j :: 0 <= j < |p.faces| ==> WellFormed(p.faces[j]) && Complete(p.faces[j])
    requires v == VerdictOn(H, p)
    ensures plan == PlanFor(H, p, have, pool, nextSeq)
    ensures v.id in have ==> plan == Skip
    ensures v.id !in have && Distinct(Roots(H, p.faces)) ==> PlanRight(H, p, pool, nextSeq, plan)
  {
    hide PlanRight, PlanFor;
    plan := DerivePlan(H, v, p, have, pool, nextSeq);
    if v.id !in have && Distinct(Roots(H, p.faces)) { PlanIsRight(H, p, have, pool, nextSeq); }
  }

  method DerivePlan(H: Hasher, v: Verdict, p: Payload, have: set<Short>, pool: seq<Hash>, nextSeq: nat)
      returns (plan: Plan)
    requires |p.faces| == CUBE_SLOTS &&
      forall j :: 0 <= j < |p.faces| ==> WellFormed(p.faces[j]) && Complete(p.faces[j])
    requires v == VerdictOn(H, p)
    ensures plan == PlanFor(H, p, have, pool, nextSeq)
    ensures v.id in have ==> plan == Skip
  {
    if v.id in have { return Skip; }
    var rows: seq<Row>, evict: seq<Hash> := [], [];
    var i := 0;
    assert RowHashes([]) == [];
    while i < |p.faces|
      invariant 0 <= i <= |p.faces|
      invariant rows == PlanRows(H, p, v.id, nextSeq, i)
      invariant evict == Within(RowHashes(rows), pool)
    {
      var faceIndex := IndexOf(Sort(v.faceRoots), FaceRootOf(H, Keys(p.faces[i])));
      assert faceIndex == FaceRank(H, p, i);
      var more, gone := PlanFace(p.faces[i], faceIndex, v.id, nextSeq, pool);
      assert RowHashes(rows + more) == RowHashes(rows) + RowHashes(more);
      WithinAppend(RowHashes(rows), RowHashes(more), pool);
      rows := rows + more;
      evict := evict + gone;
      i := i + 1;
    }
    return Adopt(v.id, v.root, rows, evict);
  }

  function PlanFor(H: Hasher, p: Payload, have: set<Short>, pool: seq<Hash>, nextSeq: nat): Plan
    requires |p.faces| == CUBE_SLOTS &&
      forall j :: 0 <= j < |p.faces| ==> WellFormed(p.faces[j]) && Complete(p.faces[j])
  {
    var v := VerdictOn(H, p);
    if v.id in have then Skip
    else
      var rows := PlanRows(H, p, v.id, nextSeq, CUBE_SLOTS);
      Adopt(v.id, v.root, rows, Within(RowHashes(rows), pool))
  }
}
