/** Where the assembler and the placement check disagree: one numbers a cube's faces by slot, the other by rank. */
module SlotVersusRank {
  import opened Ordering
  import opened JsMap
  import opened Hashing
  import opened PlacementCheck
  import A = Assembler
  import SH = SampleHasher

  /** A placed face as the check reads it: members with their positions, and the slot as the face's index. */
  function AsPayload(f: A.FaceBox, slot: nat): WireFace {
    WireFace(seq(|f.members|, p requires 0 <= p < |f.members| =>
      WireBlock(f.members[p].key, None, Some(p), None, None)),
             Some(f.root), Some(slot), Some(f.index))
  }

  function CubePayload(faces: seq<A.FaceBox>): (r: seq<WireFace>)
    ensures |r| == |faces|
  {
    seq(|faces|, s requires 0 <= s < |faces| => AsPayload(faces[s], s))
  }

  /** A face the assembler built: nine members by ascending key, and the root of their keys. */
  ghost predicate WellBuilt(H: Hasher, f: A.FaceBox) {
    && |f.members| == FACE_SIZE
    && (forall p :: 0 <= p < FACE_SIZE ==> f.members[p].key.Some?)
    && (forall p, q :: 0 <= p < q < FACE_SIZE ==> f.members[p].key.value < f.members[q].key.value)
    && f.root == FaceRootOf(H, KeysOf(A.NumKey(A.MemberKey), f.members))
  }

  lemma {:induction false} IndexOfAt(s: seq<Hash>, i: nat)
    requires Distinct(s) && i < |s|
    ensures IndexOf(s, s[i]) == i
  {
    if i > 0 { IndexOfAt(s[1..], i - 1); }
  }

  /** Its members stand at their ranks, so on positions the two agree. */
  lemma PositionsArePlaced(H: Hasher, f: A.FaceBox, slot: nat)
    requires WellBuilt(H, f)
    ensures var w := AsPayload(f, slot); WellFormed(w) && PositionsAgree(w) && Root(H, w) == f.root
  {
    var w := AsPayload(f, slot);
    var keys := Keys(w);
    assert forall p :: 0 <= p < FACE_SIZE ==> keys[p] == f.members[p].key.value;
    forall p | 0 <= p < FACE_SIZE ensures A.NumKey(A.MemberKey)(f.members[p]) == keys[p] {
      assert A.MemberKey(f.members[p]).Some?;
    }
    assert keys == KeysOf(A.NumKey(A.MemberKey), f.members);
    SortOfSorted(keys);
    forall p | 0 <= p < FACE_SIZE ensures IndexOf(Sort(keys), keys[p]) == p { IndexOfAt(keys, p); }
  }

  // ---- every face of a placed cube is well built ----

  lemma PlaceableKeyed(blocks: seq<A.Member>)
    ensures multiset(A.Placeable(blocks)) == multiset(Keep(blocks, A.IsPlaceable))
    ensures SortedBy(A.NumKey(A.MemberKey), A.Placeable(blocks))
    ensures forall m | m in A.Placeable(blocks) :: m.key.Some? && A.NumKey(A.MemberKey)(m) == m.key.value
  {
    var kept := Keep(blocks, A.IsPlaceable);
    A.KeyedPlaceable(blocks);
    KeepElements(blocks, A.IsPlaceable);
    SortBySorts(A.NumKey(A.MemberKey), kept);
    forall m | m in A.Placeable(blocks) ensures m.key.Some? && A.MemberKey(m) == m.key {
      assert m in multiset(kept);
      assert A.IsPlaceable(m);
    }
  }

  lemma PlaceableAscends(blocks: seq<A.Member>)
    requires A.DistinctKeys(blocks)
    ensures var ordered := A.Placeable(blocks);
      && (forall m | m in ordered :: m.key.Some?)
      && forall p, q :: 0 <= p < q < |ordered| ==> ordered[p].key.value < ordered[q].key.value
  {
    hide A.Placeable, A.IsPlaceable, A.NumKey;
    var num, kept, ordered := A.NumKey(A.MemberKey), Keep(blocks, A.IsPlaceable), A.Placeable(blocks);
    PlaceableKeyed(blocks);
    A.KeysDistinct(num, kept);
    KeysMultiset(num, kept, ordered);
    DistinctFromMultiset(KeysOf(num, kept), KeysOf(num, ordered));
    forall p, q | 0 <= p < q < |ordered| ensures ordered[p].key.value < ordered[q].key.value {
      assert KeysOf(num, ordered)[p] != KeysOf(num, ordered)[q];
      assert ordered[p] in ordered && ordered[q] in ordered;
    }
  }

  lemma FacesAreWellBuilt(H: Hasher, blocks: seq<A.Member>, start: nat)
    requires A.DistinctKeys(blocks)
    ensures forall f | f in A.Boxes(H, Chunks(A.Placeable(blocks), FACE_SIZE), start) :: WellBuilt(H, f)
  {
    hide A.Placeable, Chunks;
    var ordered := A.Placeable(blocks);
    var chunks := Chunks(ordered, FACE_SIZE);
    PlaceableAscends(blocks);
    forall i | 0 <= i < |chunks| ensures WellBuilt(H, A.BoxOf(H, chunks[i], start + i)) {
      ChunkAt(ordered, FACE_SIZE, i);
      var c := chunks[i];
      assert forall p | 0 <= p < FACE_SIZE :: c[p] == ordered[i * FACE_SIZE + p] && c[p] in ordered;
    }
  }

  /** The face in slot s of cube k is one of the placed faces, and its root names the slot. */
  lemma CubeFaceAt(H: Hasher, blocks: seq<A.Member>, startFace: nat, startCube: nat, level: nat, k: nat, s: nat)
    requires k < |A.PlaceAll(H, blocks, startFace, startCube, level).cubes| && s < CUBE_SLOTS
    ensures var r := A.PlaceAll(H, blocks, startFace, startCube, level);
      && |r.cubes[k].faces| == CUBE_SLOTS && r.cubes[k].faces[s] in r.faces
      && A.SlotOf(r.cubes[k].faces[s].root, CUBE_SLOTS) == s
  {
    hide A.Column, A.Cubes, A.Boxes, A.Placeable;
    var faces := A.PlaceAll(H, blocks, startFace, startCube, level).faces;
    A.CubeFace(H, A.Columns(A.FaceKey, faces, CUBE_SLOTS), startCube, level, k, s);
    A.InColumn(faces, s, k);
  }

  // ---- the disagreement ----

  /** On face indices they agree only by chance: with distinct keys, a cube the assembler placed passes the placement
      check if and only if its three roots happen to ascend in slot order. */
  lemma PlacedCubePassesIff(H: Hasher, blocks: seq<A.Member>, startFace: nat, startCube: nat, level: nat, k: nat)
    requires A.DistinctKeys(blocks) && k < |A.PlaceAll(H, blocks, startFace, startCube, level).cubes|
    ensures var faces := A.PlaceAll(H, blocks, startFace, startCube, level).cubes[k].faces;
      |faces| == CUBE_SLOTS && (Legal(H, CubePayload(faces)) <==> faces[0].root < faces[1].root < faces[2].root)
  {
    hide A.PlaceAll, CubePayload, WellBuilt, Legal;
    var faces := A.PlaceAll(H, blocks, startFace, startCube, level).cubes[k].faces;
    CubeIsWellBuilt(H, blocks, startFace, startCube, level, k);
    SlotsPassIff(H, faces);
  }

  lemma CubeIsWellBuilt(H: Hasher, blocks: seq<A.Member>, startFace: nat, startCube: nat, level: nat, k: nat)
    requires A.DistinctKeys(blocks) && k < |A.PlaceAll(H, blocks, startFace, startCube, level).cubes|
    ensures var faces := A.PlaceAll(H, blocks, startFace, startCube, level).cubes[k].faces;
      |faces| == CUBE_SLOTS && forall s :: 0 <= s < CUBE_SLOTS ==> WellBuilt(H, faces[s])
  {
    hide WellBuilt, A.Cubes, A.Boxes, A.Placeable, A.Columns;
    FacesAreWellBuilt(H, blocks, startFace);
    CubeFaceAt(H, blocks, startFace, startCube, level, k, 0);
    CubeFaceAt(H, blocks, startFace, startCube, level, k, 1);
    CubeFaceAt(H, blocks, startFace, startCube, level, k, 2);
  }

  lemma SlotsPassIff(H: Hasher, faces: seq<A.FaceBox>)
    requires |faces| == CUBE_SLOTS && forall s :: 0 <= s < CUBE_SLOTS ==> WellBuilt(H, faces[s])
    ensures Legal(H, CubePayload(faces)) <==> faces[0].root < faces[1].root < faces[2].root
  {
    PayloadFaces(H, faces);
    var ws := CubePayload(faces);
    hide WellFormed, PositionsAgree, WellBuilt, Root, Legal, IndexAgrees, Sort, IndexOf, CubePayload;
    LegalSplit(H, ws);
    IndicesAreRanks(ws, Roots(H, ws));
  }

  lemma PayloadFaces(H: Hasher, faces: seq<A.FaceBox>)
    requires |faces| == CUBE_SLOTS && forall s :: 0 <= s < CUBE_SLOTS ==> WellBuilt(H, faces[s])
    ensures var ws := CubePayload(faces);
      && (forall s :: 0 <= s < 3 ==> WellFormed(ws[s]) && PositionsAgree(ws[s]) && Unclaimed(ws[s], s))
      && (forall s :: 0 <= s < 3 ==> Roots(H, ws)[s] == faces[s].root)
  {
    var ws := CubePayload(faces);
    forall s | 0 <= s < 3
      ensures WellFormed(ws[s]) && PositionsAgree(ws[s]) && Unclaimed(ws[s], s) && Root(H, ws[s]) == faces[s].root
    {
      PositionsArePlaced(H, faces[s], s);
      hide WellFormed, PositionsAgree, WellBuilt, Root;
    }
  }

  /** The face claims index s and its blocks claim none. */
  ghost predicate Unclaimed(w: WireFace, s: nat) {
    w.faceIndex == Some(s) && forall j :: 0 <= j < |w.blocks| ==> w.blocks[j].locFace.None?
  }

  /** For three well-formed faces whose positions agree, legality is about the roots alone. */
  ghost predicate LegalIsIndices(H: Hasher, ws: seq<WireFace>)
    requires forall s :: 0 <= s < |ws| ==> WellFormed(ws[s])
  {
    Legal(H, ws) <==>
      Distinct(Roots(H, ws)) && forall s :: 0 <= s < |ws| ==>
        IndexAgrees(ws[s], IndexOf(Sort(Roots(H, ws)), Roots(H, ws)[s]))
  }

  lemma LegalSplit(H: Hasher, ws: seq<WireFace>)
    requires |ws| == CUBE_SLOTS && forall s :: 0 <= s < |ws| ==> WellFormed(ws[s]) && PositionsAgree(ws[s])
    ensures LegalIsIndices(H, ws)
  {
    hide PositionsAgree, IndexAgrees, Root, Sort;
  }

  lemma IndicesAreRanks(ws: seq<WireFace>, roots: seq<Hash>)
    requires |ws| == |roots| == 3
    requires forall s :: 0 <= s < 3 ==> Unclaimed(ws[s], s)
    ensures Distinct(roots) && (forall s :: 0 <= s < 3 ==> IndexAgrees(ws[s], IndexOf(Sort(roots), roots[s]))) <==>
      roots[0] < roots[1] < roots[2]
  {
    forall s, r: nat | 0 <= s < 3 ensures IndexAgrees(ws[s], r) <==> r == s { assert Unclaimed(ws[s], s); }
    hide IndexAgrees, Unclaimed;
    RanksAscend(roots);
  }

  lemma RanksAscend(roots: seq<Hash>)
    requires |roots| == 3
    ensures Distinct(roots) && (forall s :: 0 <= s < 3 ==> IndexOf(Sort(roots), roots[s]) == s) <==>
      roots[0] < roots[1] < roots[2]
  {
    SortSorts(roots);
    var t := Sort(roots);
    if roots[0] < roots[1] < roots[2] {
      SortOfSorted(roots);
      IndexOfAt(roots, 0);
      IndexOfAt(roots, 1);
      IndexOfAt(roots, 2);
    }
    hide Sort;
    if Distinct(roots) && forall s :: 0 <= s < 3 ==> IndexOf(t, roots[s]) == s {
      assert t[0] == roots[0] && t[1] == roots[1] && t[2] == roots[2];
    }
  }

  // ---- both happen ----

  /** Nine blocks with consecutive keys from x on. */
  function Nine(x: nat): (r: seq<A.Member>)
    ensures |r| == FACE_SIZE
  {
    seq(FACE_SIZE, i requires 0 <= i < FACE_SIZE => A.Member(Some(x + i), None, true, 0))
  }

  function Nines(x: nat, y: nat, z: nat): seq<A.Member> { Nine(x) + Nine(y) + Nine(z) }

  /** Apart, with three different slots. */
  predicate Spread(x: nat, y: nat, z: nat) {
    x + FACE_SIZE <= y && y + FACE_SIZE <= z && z < SH.LOW && {x % 3, y % 3, z % 3} == {0, 1, 2}
  }

  function RootFrom(x: nat): Hash { FaceRootOf(SH.Sample(), KeysOf(A.NumKey(A.MemberKey), Nine(x))) }

  lemma NineKeys(x: nat)
    ensures var ks := KeysOf(A.NumKey(A.MemberKey), Nine(x)); Sort(ks) == ks && forall i :: 0 <= i < FACE_SIZE ==>
      ks[i] == x + i
  {
    var ks := KeysOf(A.NumKey(A.MemberKey), Nine(x));
    forall i | 0 <= i < FACE_SIZE ensures ks[i] == x + i { assert A.MemberKey(Nine(x)[i]) == Some(x + i); }
    SortOfSorted(ks);
  }

  /** Later keys give a greater root, and the slot is that of the first key. */
  lemma RootFacts(x: nat, y: nat)
    requires x < y < SH.LOW
    ensures RootFrom(x) < RootFrom(y) && A.SlotOf(RootFrom(x), CUBE_SLOTS) == x % 3 &&
      A.SlotOf(RootFrom(y), CUBE_SLOTS) == y % 3
  {
    hide Nine, Merkle, Sort;
    NineKeys(x);
    NineKeys(y);
    var a, b := KeysOf(A.NumKey(A.MemberKey), Nine(x)), KeysOf(A.NumKey(A.MemberKey), Nine(y));
    SH.MerkleGrows(a, b);
    SH.MerkleKeepsLow(a);
    SH.MerkleKeepsLow(b);
  }

  lemma NinesAscend(x: nat, y: nat, z: nat)
    requires x + FACE_SIZE <= y && y + FACE_SIZE <= z
    ensures var s, num := Nines(x, y, z), A.NumKey(A.MemberKey);
      && (forall m | m in s :: A.IsPlaceable(m))
      && A.DistinctBy(num, s) && SortedBy(num, s)
  {
    var s := Nines(x, y, z);
    forall i | 0 <= i < |s| ensures A.IsPlaceable(s[i]) && A.MemberKey(s[i]) == s[i].key { }
    forall i, j | 0 <= i < j < |s| ensures A.NumKey(A.MemberKey)(s[i]) < A.NumKey(A.MemberKey)(s[j]) {
      assert A.MemberKey(s[i]) == s[i].key && A.MemberKey(s[j]) == s[j].key;
    }
  }

  lemma NinesPlaceable(x: nat, y: nat, z: nat)
    requires x + FACE_SIZE <= y && y + FACE_SIZE <= z
    ensures A.DistinctKeys(Nines(x, y, z)) && A.Placeable(Nines(x, y, z)) == Nines(x, y, z)
  {
    hide Nines, A.IsPlaceable, A.NumKey;
    var s, num := Nines(x, y, z), A.NumKey(A.MemberKey);
    NinesAscend(x, y, z);
    KeepAll(s, A.IsPlaceable);
    A.KeyedPlaceable(s);
    A.KeysDistinct(num, s);
    SortBySorts(num, s);
    SortedByUnique(num, s, SortBy(num, s));
  }

  /** The three faces of such blocks. */
  lemma NinesFaces(x: nat, y: nat, z: nat)
    requires x + FACE_SIZE <= y && y + FACE_SIZE <= z
    ensures var faces := A.PlaceAll(SH.Sample(), Nines(x, y, z), 0, 0, 1).faces;
      |faces| == 3 && faces[0].root == RootFrom(x) && faces[1].root == RootFrom(y) && faces[2].root == RootFrom(z)
  {
    hide A.Placeable, Nine, FaceRootOf;
    var s := Nines(x, y, z);
    NinesPlaceable(x, y, z);
    var chunks := Chunks(s, FACE_SIZE);
    assert |chunks| == 3;
    ChunkAt(s, FACE_SIZE, 0);
    ChunkAt(s, FACE_SIZE, 1);
    ChunkAt(s, FACE_SIZE, 2);
    assert chunks[0] == Nine(x) && chunks[1] == Nine(y) && chunks[2] == Nine(z);
  }

  /** One of the three faces for each slot. */
  lemma NinesBySlot(x: nat, y: nat, z: nat) returns (bySlot: seq<A.FaceBox>)
    requires Spread(x, y, z)
    ensures var faces := A.PlaceAll(SH.Sample(), Nines(x, y, z), 0, 0, 1).faces;
      && |bySlot| == 3
      && (forall s :: 0 <= s < 3 ==> bySlot[s] in faces && A.SlotOf(bySlot[s].root, CUBE_SLOTS) == s)
      && (forall f | f in faces :: f == bySlot[A.SlotOf(f.root, CUBE_SLOTS)])
    ensures bySlot[x % 3].root == RootFrom(x) && bySlot[y % 3].root == RootFrom(y) && bySlot[z % 3].root == RootFrom(z)
  {
    hide A.PlaceAll, Nines, RootFrom, A.SlotOf;
    var faces := A.PlaceAll(SH.Sample(), Nines(x, y, z), 0, 0, 1).faces;
    NinesFaces(x, y, z);
    RootFacts(x, y);
    RootFacts(y, z);
    bySlot := seq(3, s requires 0 <= s < 3 => if s == x % 3 then faces[0] else if s == y % 3 then faces[1]
      else faces[2]);
  }

  /** They make a cube, whose face in slot r is the one whose first key is r modulo 3. */
  lemma NinesCube(x: nat, y: nat, z: nat)
    requires Spread(x, y, z)
    ensures var r := A.PlaceAll(SH.Sample(), Nines(x, y, z), 0, 0, 1);
      && |r.cubes| > 0 && |r.cubes[0].faces| == 3
      && r.cubes[0].faces[x % 3].root == RootFrom(x) && r.cubes[0].faces[y % 3].root == RootFrom(y)
      && r.cubes[0].faces[z % 3].root == RootFrom(z)
  {
    hide A.Columns, A.Boxes, A.Placeable, Nines, RootFrom, A.SlotOf, A.OpenRows, Chunks;
    var H, s := SH.Sample(), Nines(x, y, z);
    var bySlot := NinesBySlot(x, y, z);
    SomeCube(A.PlaceAll(H, s, 0, 0, 1).faces, bySlot);
    hide A.Cubes;
    CubeFaceAt(H, s, 0, 0, 1, 0, 0);
    CubeFaceAt(H, s, 0, 0, 1, 0, 1);
    CubeFaceAt(H, s, 0, 0, 1, 0, 2);
  }

  /** A face in every slot makes a complete row. */
  lemma SomeCube(faces: seq<A.FaceBox>, bySlot: seq<A.FaceBox>)
    requires |bySlot| == 3 && forall s :: 0 <= s < 3 ==> bySlot[s] in faces && A.SlotOf(bySlot[s].root, CUBE_SLOTS) == s
    ensures |A.CompleteRows(A.Columns(A.FaceKey, faces, CUBE_SLOTS))| > 0
  {
    var cols := A.Columns(A.FaceKey, faces, CUBE_SLOTS);
    forall s | 0 <= s < 3 ensures |cols[s]| > 0 { InSomeColumn(faces, bySlot[s], s); }
  }

  lemma InSomeColumn(faces: seq<A.FaceBox>, f: A.FaceBox, s: nat)
    requires f in faces && s < 3 && A.SlotOf(f.root, CUBE_SLOTS) == s
    ensures |A.Column(A.FaceKey, faces, CUBE_SLOTS, s)| > 0
  {
    A.ColumnFacts(A.FaceKey, faces, CUBE_SLOTS, s);
    var kept := Keep(faces, A.Keyed(A.FaceKey));
    KeepElements(faces, A.Keyed(A.FaceKey));
    KeepElements(kept, A.InSlot(A.FaceKey, CUBE_SLOTS, s));
    assert A.FaceKey(f) == Some(f.root);
    assert f in multiset(Keep(kept, A.InSlot(A.FaceKey, CUBE_SLOTS, s)));
  }

  /** The cube of these blocks passes the placement check. */
  ghost predicate Passes(x: nat, y: nat, z: nat) {
    var cubes := A.PlaceAll(SH.Sample(), Nines(x, y, z), 0, 0, 1).cubes;
    |cubes| > 0 && Legal(SH.Sample(), CubePayload(cubes[0].faces))
  }

  /** So whether such a cube passes is a matter of its residues alone, for a hash function that meets every assumption
      made of it. */
  lemma PassesByChance(x: nat, y: nat, z: nat)
    requires Spread(x, y, z)
    ensures SH.Sample().CollisionFree() && A.DistinctKeys(Nines(x, y, z))
    ensures |A.PlaceAll(SH.Sample(), Nines(x, y, z), 0, 0, 1).cubes| > 0
    ensures Passes(x, y, z) <==> x % 3 == 0 && y % 3 == 1
  {
    hide A.PlaceAll, Legal, Nines, RootFrom, CubePayload;
    SH.SampleIsCollisionFree();
    NinesPlaceable(x, y, z);
    NinesCube(x, y, z);
    RootFacts(x, y);
    RootFacts(y, z);
    PlacedCubePassesIff(SH.Sample(), Nines(x, y, z), 0, 0, 1, 0);
  }

  /** Both answers occur. */
  lemma BothOccur()
    ensures Spread(0, 10, 20) && Passes(0, 10, 20)
    ensures Spread(2, 13, 24) && !Passes(2, 13, 24)
  {
    hide Passes, Nines;
    PassesByChance(0, 10, 20);
    PassesByChance(2, 13, 24);
  }
}
