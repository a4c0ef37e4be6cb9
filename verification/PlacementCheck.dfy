/** The geometric placement check: positions are hash ranks within a face, face indices are root ranks within a cube,
    and a payload's claims must match. */
module PlacementCheck {
  import opened Ordering
  import opened JsMap
  import opened Hashing
  import F = Face

  /** A block on the wire. `position` is the direct claim; `locPosition` and `locFace` are those of its location. */
  datatype WireBlock = WireBlock(
    hash: Option<Hash>, tx: Option<Tx>, position: Option<int>, locPosition: Option<int>, locFace: Option<int>)
  datatype WireFace = WireFace(
    blocks: seq<WireBlock>, merkleRoot: Option<Hash>, faceIndex: Option<int>, index: Option<int>)

  datatype PlacedFace = PlacedFace(root: Hash, faceIndex: Option<nat>, positions: seq<nat>)
  datatype Why = BadFaceCount | NotNineBlocks | NoHash | DuplicateBlock | WrongPosition | DuplicateFace | WrongIndex |
    WrongBlockFace
  datatype Placement = Refused(why: Why) | Placed(faces: seq<PlacedFace>)

  function IndexOf(s: seq<Hash>, x: Hash): (r: nat)
    ensures r <= |s| && (r < |s| ==> s[r] == x) && (x in s ==> r < |s|)
  {
    if s == [] then 0 else if s[0] == x then 0 else 1 + IndexOf(s[1..], x)
  }

  lemma IndexOfIs(s: seq<Hash>, x: Hash, p: int)
    requires Distinct(s) && x in s
    ensures p == IndexOf(s, x) <==> 0 <= p < |s| && s[p] == x
  {
  }

  predicate AllHashed(face: WireFace) { forall i :: 0 <= i < |face.blocks| ==> face.blocks[i].hash.Some? }

  function Keys(face: WireFace): (r: seq<Hash>)
    requires AllHashed(face)
    ensures |r| == |face.blocks|
  {
    seq(|face.blocks|, i requires 0 <= i < |face.blocks| => face.blocks[i].hash.value)
  }

  function ClaimedPosition(b: WireBlock): Option<int> { if b.position.Some? then b.position else b.locPosition }

  /** A face's own index claim; the plain `index` counts only inside a cube. */
  function ClaimedIndex(face: WireFace, inCube: bool): Option<int> {
    if face.faceIndex.Some? then face.faceIndex else if inCube then face.index else None
  }

  predicate Agrees(claim: Option<int>, value: int) { claim.None? || claim.value == value }

  ghost predicate WellFormed(face: WireFace) {
    |face.blocks| == FACE_SIZE && AllHashed(face) && Distinct(Keys(face))
  }

  ghost predicate PositionsAgree(face: WireFace) requires WellFormed(face) {
    forall i :: 0 <= i < |face.blocks| ==>
      Agrees(ClaimedPosition(face.blocks[i]), IndexOf(Sort(Keys(face)), Keys(face)[i]))
  }

  function Root(H: Hasher, face: WireFace): Hash requires WellFormed(face) { FaceRootOf(H, Keys(face)) }

  function Roots(H: Hasher, faces: seq<WireFace>): (r: seq<Hash>)
    requires forall i :: 0 <= i < |faces| ==> WellFormed(faces[i])
    ensures |r| == |faces|
  {
    seq(|faces|, i requires 0 <= i < |faces| => Root(H, faces[i]))
  }

  /** Every claim a face makes about its index in the cube, its own and its blocks'. */
  predicate IndexAgrees(face: WireFace, rank: nat) {
    Agrees(ClaimedIndex(face, true), rank) && forall j :: 0 <= j < |face.blocks| ==>
      Agrees(face.blocks[j].locFace, rank)
  }

  /** What the check accepts. */
  ghost predicate Legal(H: Hasher, faces: seq<WireFace>) {
    && (|faces| == 1 || |faces| == CUBE_SLOTS)
    && (forall i :: 0 <= i < |faces| ==> WellFormed(faces[i]))
    && (forall i :: 0 <= i < |faces| ==> PositionsAgree(faces[i]))
    && (|faces| == CUBE_SLOTS ==>
          var roots := Roots(H, faces);
          && Distinct(roots)
          && forall i :: 0 <= i < |faces| ==> IndexAgrees(faces[i], IndexOf(Sort(roots), roots[i])))
  }

  /** The placement it answers with. */
  function PlaceFace(H: Hasher, faces: seq<WireFace>, i: nat): PlacedFace
    requires i < |faces| && forall j :: 0 <= j < |faces| ==> WellFormed(faces[j])
  {
    assert WellFormed(faces[i]);
    var keys, roots := Keys(faces[i]), Roots(H, faces);
    PlacedFace(roots[i], if |faces| == CUBE_SLOTS then Some(IndexOf(Sort(roots), roots[i])) else None, Positions(keys))
  }

  // ---- what an answer says ----

  /** How many of the keys lie below x: its rank. */
  function Below(keys: seq<Hash>, x: Hash): nat { |set y | y in keys && y < x| }

  lemma SortedRank(s: seq<Hash>, x: Hash)
    requires Sorted(s) && Distinct(s) && x in s
    ensures IndexOf(s, x) == Below(s, x)
  {
    var r := IndexOf(s, x);
    var low := s[..r];
    forall y | y in s && y < x ensures y in low {
      var i :| 0 <= i < |s| && s[i] == y;
      assert i < r;
      assert low[i] == y;
    }
    forall y | y in low ensures y in s && y < x {
      var i :| 0 <= i < r && low[i] == y;
      assert s[i] == y && s[i] != s[r];
    }
    assert Elements(low) == set y | y in s && y < x;
    DistinctMultiset(low);
  }

  /** Sorting puts each of several different keys at its rank. */
  lemma RankCounts(keys: seq<Hash>, x: Hash)
    requires Distinct(keys) && x in keys
    ensures IndexOf(Sort(keys), x) == Below(keys, x)
  {
    hide Sort;
    SortSorts(keys);
    SortElements(keys);
    SortDistinct(keys);
    SortedRank(Sort(keys), x);
    assert (set y | y in Sort(keys) && y < x) == set y | y in keys && y < x;
  }

  /** A block's place in a face, and what it claims of it: its own position if it has one, else that of its location. */
  ghost predicate PlacedAt(b: WireBlock, place: nat) {
    && (b.position.Some? ==> b.position.value == place)
    && (b.position.None? && b.locPosition.Some? ==> b.locPosition.value == place)
  }

  /** A face's place in a cube, and what it and its blocks claim of it. */
  ghost predicate IndexedAt(face: WireFace, place: nat) {
    && (face.faceIndex.Some? ==> face.faceIndex.value == place)
    && (face.faceIndex.None? && face.index.Some? ==> face.index.value == place)
    && forall j :: 0 <= j < |face.blocks| && face.blocks[j].locFace.Some? ==> face.blocks[j].locFace.value == place
  }

  /** An answer that is right about a face: its root, and each block at the rank of its hash, as far as it claims. */
  ghost predicate FaceRight(H: Hasher, face: WireFace, out: PlacedFace) {
    && |face.blocks| == |out.positions| == 9 && AllHashed(face) && Distinct(Keys(face))
    && out.root == FaceRootOf(H, Keys(face))
    && forall j :: 0 <= j < 9 ==>
         out.positions[j] == Below(Keys(face), face.blocks[j].hash.value) && PlacedAt(face.blocks[j], out.positions[j])
  }

  /** An answer that is right about a whole payload: one face, or three with different roots, each at the rank of its
      root. */
  ghost predicate AnswerRight(H: Hasher, faces: seq<WireFace>, out: seq<PlacedFace>) {
    && |out| == |faces| && (|faces| == 1 || |faces| == 3)
    && (forall i :: 0 <= i < |faces| ==> FaceRight(H, faces[i], out[i]))
    && (|faces| == 1 ==> out[0].faceIndex.None?)
    && (|faces| == 3 ==>
         var roots := [out[0].root, out[1].root, out[2].root];
         && Distinct(roots)
         && forall i :: 0 <= i < 3 ==>
           out[i].faceIndex == Some(Below(roots, roots[i])) && IndexedAt(faces[i], Below(roots, roots[i])))
  }

  lemma LegalFaceRight(H: Hasher, face: WireFace, out: PlacedFace)
    requires WellFormed(face) && PositionsAgree(face) && out.root == Root(H, face) &&
      out.positions == Positions(Keys(face))
    ensures FaceRight(H, face, out)
  {
    var keys := Keys(face);
    forall j | 0 <= j < 9
      ensures out.positions[j] == Below(keys, face.blocks[j].hash.value) && PlacedAt(face.blocks[j], out.positions[j])
    {
      assert keys[j] in keys;
      RankCounts(keys, keys[j]);
    }
  }

  lemma LegalIsRight(H: Hasher, faces: seq<WireFace>, out: seq<PlacedFace>)
    requires Legal(H, faces) && |out| == |faces| && forall i :: 0 <= i < |faces| ==> out[i] == PlaceFace(H, faces, i)
    ensures AnswerRight(H, faces, out)
  {
    hide WellFormed, PositionsAgree, FaceRight, Below;
    forall i | 0 <= i < |faces| ensures FaceRight(H, faces[i], out[i]) {
      assert WellFormed(faces[i]) && PositionsAgree(faces[i]);
      LegalFaceRight(H, faces[i], out[i]);
    }
    if |faces| == 3 {
      var roots := Roots(H, faces);
      assert roots == [out[0].root, out[1].root, out[2].root];
      forall i | 0 <= i < 3
        ensures out[i].faceIndex == Some(Below(roots, roots[i])) && IndexedAt(faces[i], Below(roots, roots[i]))
      {
        assert roots[i] in roots;
        RankCounts(roots, roots[i]);
        assert IndexAgrees(faces[i], IndexOf(Sort(roots), roots[i]));
      }
    }
  }

  /** What is wrong with a face that is refused for this reason. */
  ghost predicate MisplacedFace(face: WireFace, why: Why) {
    match why
    case NotNineBlocks => |face.blocks| != 9
    case NoHash => !AllHashed(face)
    case DuplicateBlock => AllHashed(face) && !Distinct(Keys(face))
    case WrongPosition => WellFormed(face) && !PositionsAgree(face)
    case _ => false
  }

  /** What is wrong with a payload that is refused for this reason. */
  ghost predicate Misplaced(H: Hasher, faces: seq<WireFace>, why: Why) {
    match why
    case BadFaceCount => |faces| != 1 && |faces| != 3
    case DuplicateFace | WrongIndex | WrongBlockFace =>
      |faces| == 3 && (forall i :: 0 <= i < 3 ==> WellFormed(faces[i])) && Misindexed(faces, Roots(H, faces), why)
    case _ => exists i :: 0 <= i < |faces| && MisplacedFace(faces[i], why)
  }

  ghost predicate Misindexed(faces: seq<WireFace>, roots: seq<Hash>, why: Why) requires |faces| == |roots| {
    match why
    case DuplicateFace => !Distinct(roots)
    case WrongIndex =>
      exists i :: 0 <= i < |faces| && !Agrees(ClaimedIndex(faces[i], true), IndexOf(Sort(roots), roots[i]))
    case WrongBlockFace => exists i :: 0 <= i < |faces| && BlockDisagrees(faces[i], IndexOf(Sort(roots), roots[i]))
    case _ => false
  }

  ghost predicate BlockDisagrees(face: WireFace, rank: nat) {
    exists j :: 0 <= j < |face.blocks| && !Agrees(face.blocks[j].locFace, rank)
  }

  // ---- the checker as it runs ----

  method CollectKeys(face: WireFace) returns (ok: bool, keys: seq<Hash>)
    ensures ok <==> AllHashed(face)
    ensures ok ==> keys == Keys(face)
  {
    keys := [];
    var k := 0;
    while k < |face.blocks|
      invariant 0 <= k <= |face.blocks| && |keys| == k
      invariant forall j :: 0 <= j < k ==> face.blocks[j].hash == Some(keys[j])
    {
      if face.blocks[k].hash.None? { return false, keys; }
      keys := keys + [face.blocks[k].hash.value];
      k := k + 1;
    }
    return true, keys;
  }

  method AllDistinct(keys: seq<Hash>) returns (ok: bool)
    ensures ok <==> Distinct(keys)
  {
    var seen: set<Hash> := {};
    var k := 0;
    while k < |keys|
      invariant 0 <= k <= |keys|
      invariant forall x :: x in seen <==> exists i :: 0 <= i < k && keys[i] == x
      invariant forall i, j :: 0 <= i < j < k ==> keys[i] != keys[j]
    {
      if keys[k] in seen { return false; }
      seen := seen + {keys[k]};
      k := k + 1;
    }
    return true;
  }

  function Positions(keys: seq<Hash>): (r: seq<nat>)
    ensures |r| == |keys|
  {
    seq(|keys|, k requires 0 <= k < |keys| => IndexOf(Sort(keys), keys[k]))
  }

  method RankBlocks(face: WireFace, keys: seq<Hash>) returns (ok: bool, positions: seq<nat>)
    requires WellFormed(face) && keys == Keys(face)
    ensures ok <==> PositionsAgree(face)
    ensures ok ==> positions == Positions(keys)
  {
    var order := Sort(keys);
    positions := [];
    var k := 0;
    while k < |keys|
      invariant 0 <= k <= |keys| && |positions| == k
      invariant forall j :: 0 <= j < k ==> positions[j] == IndexOf(order, keys[j])
      invariant forall j :: 0 <= j < k ==> Agrees(ClaimedPosition(face.blocks[j]), IndexOf(order, keys[j]))
    {
      var rank := IndexOf(order, keys[k]);
      if !Agrees(ClaimedPosition(face.blocks[k]), rank) { return false, positions; }
      positions := positions + [rank];
      k := k + 1;
    }
    return true, positions;
  }

  method CheckFace(H: Hasher, face: WireFace) returns (why: Option<Why>, placed: PlacedFace)
    ensures why.None? <==> WellFormed(face) && PositionsAgree(face)
    ensures why.Some? ==> MisplacedFace(face, why.value)
    ensures why.None? ==> placed == PlacedFace(Root(H, face), None, Positions(Keys(face)))
  {
    placed := PlacedFace(0, None, []);
    if |face.blocks| != FACE_SIZE { return Some(NotNineBlocks), placed; }
    var hashed, keys := CollectKeys(face);
    if !hashed { return Some(NoHash), placed; }
    var distinct := AllDistinct(keys);
    if !distinct { return Some(DuplicateBlock), placed; }
    var agrees, positions := RankBlocks(face, keys);
    if !agrees { return Some(WrongPosition), placed; }
    return None, PlacedFace(FaceRootOf(H, keys), None, positions);
  }

  method CheckIndices(faces: seq<WireFace>, roots: seq<Hash>) returns (why: Option<Why>)
    requires |faces| == |roots| == CUBE_SLOTS
    ensures why.None? <==>
      Distinct(roots) && forall i :: 0 <= i < |faces| ==> IndexAgrees(faces[i], IndexOf(Sort(roots), roots[i]))
    ensures why.Some? ==> Misindexed(faces, roots, why.value)
  {
    if roots[0] == roots[1] || roots[0] == roots[2] || roots[1] == roots[2] { return Some(DuplicateFace); }
    var i := 0;
    while i < |faces|
      invariant 0 <= i <= |faces|
      invariant forall f :: 0 <= f < i ==> IndexAgrees(faces[f], IndexOf(Sort(roots), roots[f]))
    {
      why := CheckIndex(faces[i], IndexOf(Sort(roots), roots[i]));
      if why.Some? { return why; }
      i := i + 1;
    }
    return None;
  }

  method CheckIndex(face: WireFace, rank: nat) returns (why: Option<Why>)
    ensures why.None? <==> IndexAgrees(face, rank)
    ensures why.Some? ==> why.value == WrongIndex || why.value == WrongBlockFace
    ensures why == Some(WrongIndex) ==> !Agrees(ClaimedIndex(face, true), rank)
    ensures why == Some(WrongBlockFace) ==> BlockDisagrees(face, rank)
  {
    if !Agrees(ClaimedIndex(face, true), rank) { return Some(WrongIndex); }
    var j := 0;
    while j < |face.blocks|
      invariant 0 <= j <= |face.blocks|
      invariant forall k :: 0 <= k < j ==> Agrees(face.blocks[k].locFace, rank)
    {
      if !Agrees(face.blocks[j].locFace, rank) { return Some(WrongBlockFace); }
      j := j + 1;
    }
    return None;
  }

  /** The whole check: it accepts exactly the legal payloads. An answer gives each face its root and each block and
      face its rank, which is what they claim; a refusal names something wrong. */
  method VerifyPlacement(H: Hasher, faces: seq<WireFace>) returns (r: Placement)
    ensures r.Placed? <==> Legal(H, faces)
    ensures r.Placed? ==> |r.faces| == |faces| && forall i :: 0 <= i < |faces| ==> r.faces[i] == PlaceFace(H, faces, i)
    ensures r.Placed? ==> AnswerRight(H, faces, r.faces)
    ensures r.Refused? ==> Misplaced(H, faces, r.why)
  {
    r := DerivePlacement(H, faces);
    if r.Placed? { LegalIsRight(H, faces, r.faces); }
  }

  method DerivePlacement(H: Hasher, faces: seq<WireFace>) returns (r: Placement)
    ensures r.Placed? <==> Legal(H, faces)
    ensures r.Placed? ==> |r.faces| == |faces| && forall i :: 0 <= i < |faces| ==> r.faces[i] == PlaceFace(H, faces, i)
    ensures r.Refused? ==> Misplaced(H, faces, r.why)
  {
    hide Misindexed;
    if |faces| != 1 && |faces| != CUBE_SLOTS { return Refused(BadFaceCount); }
    var derived: seq<PlacedFace> := [];
    var i := 0;
    while i < |faces|
      invariant 0 <= i <= |faces| && |derived| == i
      invariant forall j :: 0 <= j < i ==> WellFormed(faces[j]) && PositionsAgree(faces[j])
      invariant forall j :: 0 <= j < i ==> derived[j] == PlacedFace(Root(H, faces[j]), None, Positions(Keys(faces[j])))
    {
      var why, placed := CheckFace(H, faces[i]);
      if why.Some? { return Refused(why.value); }
      derived := derived + [placed];
      i := i + 1;
    }
    if |faces| == CUBE_SLOTS {
      var roots := [derived[0].root, derived[1].root, derived[2].root];
      assert roots == Roots(H, faces);
      var why := CheckIndices(faces, roots);
      if why.Some? { return Refused(why.value); }
      var out: seq<PlacedFace> := [];
      i := 0;
      while i < |derived|
        invariant 0 <= i <= |derived| && |out| == i
        invariant forall j :: 0 <= j < i ==> out[j] == PlaceFace(H, faces, j)
      {
        out := out + [derived[i].(faceIndex := Some(IndexOf(Sort(roots), derived[i].root)))];
        i := i + 1;
      }
      return Placed(out);
    }
    return Placed(derived);
  }

  // ---- the checker is exact ----

  /** A cube payload that states everything: a position and a face index for each block, an index for each face. */
  ghost predicate AllClaimed(faces: seq<WireFace>) {
    forall i :: 0 <= i < |faces| ==>
      ClaimedIndex(faces[i], true).Some? &&
      forall j :: 0 <= j < |faces[i].blocks| ==>
        ClaimedPosition(faces[i].blocks[j]).Some? && faces[i].blocks[j].locFace.Some?
  }

  /** The face that results when its blocks arrive at a Face, in some order and with repeats. */
  ghost predicate ArrivedAs(face: WireFace, arrivals: seq<F.Block>) requires AllHashed(face) {
    Elements(F.Hashes(arrivals)) == Elements(Keys(face))
  }

  /** Every block's claim is the position where the Face built from these arrivals holds it. */
  ghost predicate PositionsFromFace(face: WireFace, arrivals: seq<F.Block>)
    requires WellFormed(face) && ArrivedAs(face, arrivals)
  {
    var placed := F.Hashes(F.AddAll(F.NewFace(), arrivals).blocks);
    forall j :: 0 <= j < |face.blocks| && ClaimedPosition(face.blocks[j]).Some? ==>
      0 <= ClaimedPosition(face.blocks[j]).value < |placed| &&
        placed[ClaimedPosition(face.blocks[j]).value] == Keys(face)[j]
  }

  /** A claim, if made, is the place that sorting the faces by root gives face i. */
  predicate ClaimsPlace(roots: seq<Hash>, claim: Option<int>, i: nat) {
    claim.Some? ==> 0 <= claim.value < |RootOrder(roots)| && RootOrder(roots)[claim.value] == i
  }

  /** Every index claim is the place sorting the faces by root gives the face: the index SortFacesByHash writes. */
  ghost predicate IndicesFromSort(faces: seq<WireFace>, roots: seq<Hash>) requires |faces| == |roots| {
    forall i :: 0 <= i < |faces| ==>
      && ClaimsPlace(roots, ClaimedIndex(faces[i], true), i)
      && forall j :: 0 <= j < |faces[i].blocks| ==> ClaimsPlace(roots, faces[i].blocks[j].locFace, i)
  }

  /** With distinct roots the rank of a root and the place of its face are one number. */
  lemma RankIsPlace(roots: seq<Hash>, i: nat, claim: Option<int>)
    requires Distinct(roots) && i < |roots|
    ensures Agrees(claim, IndexOf(Sort(roots), roots[i])) <==> ClaimsPlace(roots, claim, i)
  {
    var s, r := Sort(roots), RootOrder(roots);
    SortElements(roots);
    SortDistinct(roots);
    SortSorts(roots);
    RootOrderSorts(roots);
    assert roots[i] in roots;
    AgreesIsRank(s, roots[i], claim);
    SortedRoots(roots);
  }

  /** Read in root order the roots are sorted. */
  lemma SortedRoots(roots: seq<Hash>)
    ensures |RootOrder(roots)| == |Sort(roots)|
    ensures forall k :: 0 <= k < |Sort(roots)| ==>
      RootOrder(roots)[k] < |roots| && roots[RootOrder(roots)[k]] == Sort(roots)[k]
  {
    var n := Numbered(roots);
    SortByKeys(First, n);
    assert KeysOf(First, n) == roots;
    RootOrderSorts(roots);
    SortBySorts(First, n);
    forall k | 0 <= k < |SortBy(First, n)| ensures roots[SortBy(First, n)[k].1] == SortBy(First, n)[k].0 {
      assert SortBy(First, n)[k] in multiset(n);
      assert SortBy(First, n)[k] in n;
    }
  }

  lemma AgreesIsRank(s: seq<Hash>, x: Hash, claim: Option<int>)
    requires Distinct(s) && x in s
    ensures Agrees(claim, IndexOf(s, x)) <==> (claim.Some? ==> 0 <= claim.value < |s| && s[claim.value] == x)
  {
    if claim.Some? { IndexOfIs(s, x, claim.value); }
  }

  lemma PositionsExact(H: Hasher, face: WireFace, arrivals: seq<F.Block>)
    requires WellFormed(face) && ArrivedAs(face, arrivals)
    ensures PositionsAgree(face) <==> PositionsFromFace(face, arrivals)
  {
    var keys := Keys(face);
    F.FaceIsOrderFree(H, arrivals, keys);
    var s := Sort(keys);
    SortElements(keys);
    SortDistinct(keys);
    forall j | 0 <= j < |face.blocks|
      ensures Agrees(ClaimedPosition(face.blocks[j]), IndexOf(s, keys[j])) <==>
              (ClaimedPosition(face.blocks[j]).Some? ==>
                0 <= ClaimedPosition(face.blocks[j]).value < |s| && s[ClaimedPosition(face.blocks[j]).value] == keys[j])
    {
      assert keys[j] in keys;
      AgreesIsRank(s, keys[j], ClaimedPosition(face.blocks[j]));
    }
  }

  lemma IndicesExact(faces: seq<WireFace>, roots: seq<Hash>)
    requires |faces| == |roots| && Distinct(roots)
    ensures (forall i :: 0 <= i < |faces| ==> IndexAgrees(faces[i], IndexOf(Sort(roots), roots[i]))) <==>
      IndicesFromSort(faces, roots)
  {
    forall i, claim: Option<int> | 0 <= i < |roots|
      ensures Agrees(claim, IndexOf(Sort(roots), roots[i])) <==> ClaimsPlace(roots, claim, i)
    {
      RankIsPlace(roots, i, claim);
    }
  }

  /** The checker is exact: a cube of three faces with nine distinct hashes each and distinct roots is accepted if and
      only if its claims are the positions the Face class assigns, for any arrival order, and the indices that sorting
      the faces by root assigns. */
  lemma CheckerIsExact(H: Hasher, faces: seq<WireFace>, arrivals: seq<seq<F.Block>>)
    requires |faces| == |arrivals| == CUBE_SLOTS && (forall i :: 0 <= i < 3 ==> WellFormed(faces[i]))
    requires Distinct(Roots(H, faces)) && AllClaimed(faces)
    requires forall i :: 0 <= i < 3 ==> ArrivedAs(faces[i], arrivals[i])
    ensures Legal(H, faces) <==>
      (forall i :: 0 <= i < 3 ==> PositionsFromFace(faces[i], arrivals[i])) && IndicesFromSort(faces, Roots(H, faces))
  {
    forall i | 0 <= i < 3 ensures PositionsAgree(faces[i]) <==> PositionsFromFace(faces[i], arrivals[i]) {
      PositionsExact(H, faces[i], arrivals[i]);
    }
    IndicesExact(faces, Roots(H, faces));
  }

  // ---- sorting sealed faces, in place ----

  function First(p: (Hash, nat)): Hash { p.0 }

  /** Each root with the place it stands at. */
  function Numbered(roots: seq<Hash>): (r: seq<(Hash, nat)>)
    ensures |r| == |roots|
  {
    seq(|roots|, k requires 0 <= k < |roots| => (roots[k], k))
  }

  /** The places of the roots, in root order: a permutation, along which the roots ascend. */
  function RootOrder(roots: seq<Hash>): (r: seq<nat>) {
    seq(|SortBy(First, Numbered(roots))|, k requires 0 <= k < |SortBy(First, Numbered(roots))| =>
      SortBy(First, Numbered(roots))[k].1)
  }

  lemma RootOrderSorts(roots: seq<Hash>)
    ensures var r := RootOrder(roots);
      && |r| == |roots| && Distinct(r)
      && (forall k :: 0 <= k < |r| ==> r[k] < |roots|)
      && (forall i, j :: 0 <= i < j < |r| ==> roots[r[i]] <= roots[r[j]])
      && (forall k :: 0 <= k < |roots| ==> k in r)
  {
    var n := Numbered(roots);
    var s := SortBy(First, n);
    SortBySorts(First, n);
    assert Distinct(n);
    DistinctFromMultiset(n, s);
    forall k | 0 <= k < |s| ensures s[k].1 < |roots| && roots[s[k].1] == s[k].0 {
      assert s[k] in multiset(s);
      assert s[k] in n;
    }
    forall k | 0 <= k < |roots| ensures k in RootOrder(roots) {
      assert n[k] in multiset(n);
      assert n[k] in s;
      var j :| 0 <= j < |s| && s[j] == n[k];
      assert RootOrder(roots)[j] == k;
    }
    forall i, j | 0 <= i < j < |s| ensures s[i].1 != s[j].1 {
      assert s[i] != s[j];
    }
  }

  /** The roots of faces as they stand; one that is not complete counts its missing hashes as zero. */
  ghost function RootsOf(H: Hasher, faces: seq<F.Face>): (r: seq<Hash>)
    reads faces
    ensures |r| == |faces|
  {
    seq(|faces|, k requires 0 <= k < |faces| reads faces => F.RootOf(H, faces[k].State()))
  }

  method CollectRoots(H: Hasher, faces: seq<F.Face>) returns (roots: seq<Hash>)
    ensures roots == RootsOf(H, faces)
  {
    roots := [];
    var i := 0;
    while i < |faces|
      invariant 0 <= i <= |faces| && |roots| == i
      invariant forall k :: 0 <= k < i ==> roots[k] == F.RootOf(H, faces[k].State())
    {
      roots := roots + [Merkle(H, F.PaddedHashes(F.FaceState(faces[i].pending, faces[i].blocks, faces[i].sorted)))];
      i := i + 1;
    }
  }

  /** Order faces by root and write each one's index in place: the face at place order[k] gets index k. */
  method SortFacesByHash(H: Hasher, faces: seq<F.Face>) returns (order: seq<nat>)
    requires Distinct(faces)
    modifies set f | f in faces :: f`index
    ensures order == RootOrder(old(RootsOf(H, faces))) && RootsOf(H, faces) == old(RootsOf(H, faces))
    ensures |order| == |faces| && forall k :: 0 <= k < |order| ==> order[k] < |faces| && faces[order[k]].index == k
  {
    var roots := CollectRoots(H, faces);
    order := RootOrder(roots);
    RootOrderSorts(roots);
    var k := 0;
    while k < |order|
      invariant 0 <= k <= |order|
      invariant forall j :: 0 <= j < k ==> faces[order[j]].index == j
      invariant RootsOf(H, faces) == roots
    {
      assert faces[order[k]] in faces;
      faces[order[k]].index := k;
      k := k + 1;
    }
  }
}
