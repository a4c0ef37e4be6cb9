/** A face: nine blocks gathered in any order, then placed by hash rank; and the one-pass sealing of a pool into
    faces. */
module Face {
  import opened Ordering
  import opened JsMap
  import opened Hashing

  /** A block as a face sees it: its content hash, and whatever else rides on it. */
  datatype Block = Block(hash: Hash, rest: nat)
  datatype AddResult = Added | Duplicate | Full
  datatype FaceState = FaceState(pending: seq<Block>, blocks: seq<Block>, sorted: bool)

  function HashOfBlock(b: Block): Hash { b.hash }

  function NewFace(): FaceState { FaceState([], [], false) }

  predicate Holds(pending: seq<Block>, h: Hash) { exists i :: 0 <= i < |pending| && pending[i].hash == h }

  /** One arrival: skipped when its hash is pending, refused when the face is full, and the ninth sorts the face. */
  function Add(f: FaceState, b: Block): (FaceState, AddResult) {
    if Holds(f.pending, b.hash) then (f, Duplicate)
    else if |f.blocks| >= FACE_SIZE || |f.pending| >= FACE_SIZE then (f, Full)
    else
      var pending := f.pending + [b];
      if |pending| == FACE_SIZE then (FaceState([], SortBy(HashOfBlock, pending), true), Added)
      else (f.(pending := pending), Added)
  }

  function AddAll(f: FaceState, arrivals: seq<Block>): FaceState {
    if arrivals == [] then f else Add(AddAll(f, arrivals[..|arrivals| - 1]), arrivals[|arrivals| - 1]).0
  }

  function Hashes(bs: seq<Block>): (r: seq<Hash>) { KeysOf(HashOfBlock, bs) }

  /** The hashes at positions 0 to 8; a position without a block counts as 64 zero digits. */
  function PaddedHashes(f: FaceState): (r: seq<Hash>)
    ensures |r| == FACE_SIZE
    ensures |f.blocks| == FACE_SIZE ==> r == Hashes(f.blocks)
  {
    seq(FACE_SIZE, i requires 0 <= i < FACE_SIZE => if i < |f.blocks| then f.blocks[i].hash else 0)
  }

  function RootOf(H: Hasher, f: FaceState): Hash { Merkle(H, PaddedHashes(f)) }

  // ---- arrival order does not matter ----

  /** Below nine distinct hashes a face holds exactly the hashes that arrived; at nine it holds them in rank order. */
  ghost predicate Gathered(f: FaceState, hs: set<Hash>) {
    if |hs| < FACE_SIZE then
      f.blocks == [] && !f.sorted && Distinct(Hashes(f.pending)) && Elements(Hashes(f.pending)) == hs
    else
      f.pending == [] && f.sorted && |f.blocks| == FACE_SIZE && Distinct(Hashes(f.blocks)) &&
        Sorted(Hashes(f.blocks)) &&
      Elements(Hashes(f.blocks)) == hs
  }

  lemma AddGathers(f: FaceState, hs: set<Hash>, b: Block)
    requires Gathered(f, hs) && |hs + {b.hash}| <= FACE_SIZE
    ensures Gathered(Add(f, b).0, hs + {b.hash})
  {
    var ks := Hashes(f.pending);
    if |hs| < FACE_SIZE {
      DistinctMultiset(ks);
      assert Holds(f.pending, b.hash) <==> b.hash in hs by {
        if b.hash in hs {
          assert b.hash in ks;
          var i :| 0 <= i < |ks| && ks[i] == b.hash;
          assert f.pending[i].hash == b.hash;
        }
        if i :| 0 <= i < |f.pending| && f.pending[i].hash == b.hash { assert ks[i] in Elements(ks); }
      }
      if b.hash in hs {
        assert hs + {b.hash} == hs;
      } else {
        var pending := f.pending + [b];
        assert Hashes(pending) == ks + [b.hash];
        assert Elements(ks + [b.hash]) == hs + {b.hash};
        assert |hs + {b.hash}| == |hs| + 1;
        assert Distinct(ks + [b.hash]) by {
          assert b.hash !in ks by { assert b.hash in ks ==> b.hash in Elements(ks); }
        }
        SortByKeys(HashOfBlock, pending);
        SortSorts(Hashes(pending));
        SortDistinct(Hashes(pending));
        SortElements(Hashes(pending));
      }
    } else {
      assert b.hash !in hs ==> |hs + {b.hash}| == |hs| + 1;
      assert hs + {b.hash} == hs;
    }
  }

  lemma {:induction false} AddAllGathers(arrivals: seq<Block>)
    requires |Elements(Hashes(arrivals))| <= FACE_SIZE
    ensures Gathered(AddAll(NewFace(), arrivals), Elements(Hashes(arrivals)))
  {
    if arrivals != [] {
      var front, b := arrivals[..|arrivals| - 1], arrivals[|arrivals| - 1];
      assert Hashes(arrivals) == Hashes(front) + [b.hash];
      assert Elements(Hashes(arrivals)) == Elements(Hashes(front)) + {b.hash};
      var es := Elements(Hashes(front));
      assert |es| <= |es + {b.hash}| by {
        if b.hash in es { assert es + {b.hash} == es; } else { assert |es + {b.hash}| == |es| + 1; }
      }
      AddAllGathers(front);
      AddGathers(AddAll(NewFace(), front), es, b);
    } else {
      assert Hashes(arrivals) == [];
    }
  }

  /** For any arrival order and any repeats, nine distinct hashes give one position map and one root. */
  lemma FaceIsOrderFree(H: Hasher, arrivals: seq<Block>, nine: seq<Hash>)
    requires Distinct(nine) && |nine| == FACE_SIZE && Elements(Hashes(arrivals)) == Elements(nine)
    ensures var f := AddAll(NewFace(), arrivals);
      && f.sorted && |f.blocks| == FACE_SIZE && f.pending == []
      && Hashes(f.blocks) == Sort(nine) && RootOf(H, f) == FaceRootOf(H, nine)
  {
    DistinctMultiset(nine);
    AddAllGathers(arrivals);
    var f := AddAll(NewFace(), arrivals);
    SortOfSameSet(Hashes(f.blocks), nine);
    SortOfSorted(Hashes(f.blocks));
  }

  // ---- the class ----

  class Face {
    var index: int
    var pending: seq<Block>
    var blocks: seq<Block>
    var sorted: bool

    ghost function State(): FaceState reads this`pending, this`blocks, this`sorted {
      FaceState(pending, blocks, sorted)
    }

    constructor (index: int)
      ensures State() == NewFace() && this.index == index
    {
      this.index, pending, blocks, sorted := index, [], [], false;
    }

    method AddBlock(b: Block) returns (r: AddResult)
      modifies this`pending, this`blocks, this`sorted
      ensures (State(), r) == Add(old(State()), b)
      // A hash that is waiting is skipped; a full face takes nothing, and neither changes the face.
      ensures r == Duplicate <==> exists j :: 0 <= j < |old(pending)| && old(pending)[j].hash == b.hash
      ensures r == Full <==> r != Duplicate && (|old(blocks)| >= FACE_SIZE || |old(pending)| >= FACE_SIZE)
      ensures r != Added ==> State() == old(State())
      // The ninth block completes the face: all nine in place, by hash. Before that a block only waits.
      ensures r == Added && |old(pending)| < FACE_SIZE - 1 ==>
        pending == old(pending) + [b] && blocks == old(blocks) && sorted == old(sorted)
      ensures r == Added && |old(pending)| == FACE_SIZE - 1 ==>
        pending == [] && sorted && multiset(blocks) == multiset(old(pending) + [b]) && Sorted(Hashes(blocks))
    {
      var i := 0;
      while i < |pending|
        invariant 0 <= i <= |pending|
        invariant forall j :: 0 <= j < i ==> pending[j].hash != b.hash
      {
        if pending[i].hash == b.hash { return Duplicate; }
        i := i + 1;
      }
      if |blocks| >= FACE_SIZE || |pending| >= FACE_SIZE { return Full; }
      pending := pending + [b];
      if |pending| == FACE_SIZE {
        SortBySorts(HashOfBlock, pending);
        SortAndAssignPositions();
      }
      return Added;
    }

    method SortAndAssignPositions()
      requires !(sorted && |blocks| == FACE_SIZE)
      modifies this`pending, this`blocks, this`sorted
      ensures State() == FaceState([], SortBy(HashOfBlock, old(pending)), true)
    {
      blocks := SortBy(HashOfBlock, pending);
      sorted := true;
      pending := [];
    }
  }

  // ---- sealing a pool in one pass ----

  /** The face that nine sorted blocks fill: complete, with the nine in place, exactly when their hashes differ;
      otherwise it never fills, and holds each of its hashes once. */
  lemma FaceOfGroup(group: seq<Block>)
    requires |group| == FACE_SIZE && Sorted(Hashes(group))
    ensures var f := AddAll(NewFace(), group);
      && (f.sorted <==> Distinct(Hashes(group)))
      && (f.sorted ==> f.pending == [] && Hashes(f.blocks) == Hashes(group))
      && (!f.sorted ==>
        f.blocks == [] && Distinct(Hashes(f.pending)) && Elements(Hashes(f.pending)) == Elements(Hashes(group)))
  {
    var hs := Hashes(group);
    ElementsAtMost(hs);
    AddAllGathers(group);
    var f := AddAll(NewFace(), group);
    if Distinct(hs) {
      DistinctMultiset(hs);
      SortOfSameSet(Hashes(f.blocks), hs);
      SortOfSorted(hs);
      SortOfSorted(Hashes(f.blocks));
    }
  }

  /** A sequence has as many different elements as places only when it is distinct. */
  lemma {:induction false} ElementsAtMost(s: seq<Hash>)
    ensures |Elements(s)| <= |s|
    ensures |Elements(s)| == |s| ==> Distinct(s)
  {
    if s != [] {
      ElementsAtMost(s[1..]);
      assert s == [s[0]] + s[1..];
      assert Elements(s) == {s[0]} + Elements(s[1..]);
      if s[0] in s[1..] { assert Elements(s) == Elements(s[1..]); }
    }
  }

  /** Sort the pool by hash and give each nine in turn to a face of its own; a shorter tail stays over. Where the hashes
      of a nine differ its face is complete and holds them in place, so a pool without repeats yields exactly the chunks
      of its sorted hashes. */
  method SealBlocksIntoFaces(pool: seq<Block>) returns (faces: seq<Face>, leftover: seq<Block>)
    ensures var groups := Chunks(SortBy(HashOfBlock, pool), FACE_SIZE);
      && fresh(faces) && |faces| == |groups| && Distinct(faces)
      && (forall k :: 0 <= k < |faces| ==> faces[k].State() == AddAll(NewFace(), groups[k]))
      && (forall k :: 0 <= k < |faces| ==> (faces[k].sorted <==> Distinct(Hashes(groups[k]))))
      && (forall k :: 0 <= k < |faces| && faces[k].sorted ==> Hashes(faces[k].blocks) == Hashes(groups[k]))
    ensures Distinct(Hashes(pool)) ==>
      && |faces| == |Chunks(Sort(Hashes(pool)), FACE_SIZE)|
      && forall k :: 0 <= k < |faces| ==>
           faces[k].sorted && Hashes(faces[k].blocks) == Chunks(Sort(Hashes(pool)), FACE_SIZE)[k]
    ensures |faces| * FACE_SIZE <= |SortBy(HashOfBlock, pool)|
    ensures leftover == SortBy(HashOfBlock, pool)[|faces| * FACE_SIZE..] && |leftover| < FACE_SIZE
  {
    hide Chunks, SortBy, Hashes, AddAll;
    var s := SortBy(HashOfBlock, pool);
    SortBySorts(HashOfBlock, pool);
    faces, leftover := FillFaces(s);
    forall k | 0 <= k < |faces|
      ensures faces[k].sorted <==> Distinct(Hashes(Chunks(s, FACE_SIZE)[k]))
      ensures faces[k].sorted ==> Hashes(faces[k].blocks) == Hashes(Chunks(s, FACE_SIZE)[k])
    {
      GroupSorted(s, k);
      FaceOfGroup(Chunks(s, FACE_SIZE)[k]);
    }
    if Distinct(Hashes(pool)) { GroupsOfDistinct(pool); }
  }

  lemma GroupSorted(s: seq<Block>, k: nat)
    requires SortedBy(HashOfBlock, s) && k < |Chunks(s, FACE_SIZE)|
    ensures Sorted(Hashes(Chunks(s, FACE_SIZE)[k]))
  {
    ChunkAt(s, FACE_SIZE, k);
  }

  /** In a pool without repeats every nine is a chunk of the sorted hashes, and itself without repeats. */
  lemma GroupsOfDistinct(pool: seq<Block>)
    requires Distinct(Hashes(pool))
    ensures var groups, chunks := Chunks(SortBy(HashOfBlock, pool), FACE_SIZE), Chunks(Sort(Hashes(pool)), FACE_SIZE);
      |groups| == |chunks| && forall k :: 0 <= k < |groups| ==> Hashes(groups[k]) == chunks[k] && Distinct(chunks[k])
  {
    hide Chunks, SortBy;
    var s, ks := SortBy(HashOfBlock, pool), Sort(Hashes(pool));
    SortByKeys(HashOfBlock, pool);
    SortDistinct(Hashes(pool));
    assert Hashes(s) == ks;
    forall k | 0 <= k < |Chunks(s, FACE_SIZE)|
      ensures Hashes(Chunks(s, FACE_SIZE)[k]) == Chunks(ks, FACE_SIZE)[k] && Distinct(Chunks(ks, FACE_SIZE)[k])
    {
      ChunkAt(s, FACE_SIZE, k);
      ChunkAt(ks, FACE_SIZE, k);
    }
  }

  /** Step through a sorted pool by nines. */
  method FillFaces(s: seq<Block>) returns (faces: seq<Face>, leftover: seq<Block>)
    ensures fresh(faces) && |faces| == |Chunks(s, FACE_SIZE)| && Distinct(faces)
    ensures forall k :: 0 <= k < |faces| ==> faces[k].State() == AddAll(NewFace(), Chunks(s, FACE_SIZE)[k])
    ensures |faces| * FACE_SIZE <= |s| && leftover == s[|faces| * FACE_SIZE..] && |leftover| < FACE_SIZE
  {
    hide Chunks, AddAll;
    faces := [];
    var i := 0;
    while i + FACE_SIZE <= |s|
      invariant 0 <= i <= |s| && i == |faces| * FACE_SIZE && |faces| <= |Chunks(s, FACE_SIZE)|
      invariant fresh(faces) && Distinct(faces)
      invariant forall k :: 0 <= k < |faces| ==> faces[k].State() == AddAll(NewFace(), Chunks(s, FACE_SIZE)[k])
    {
      ChunkBounds(s, FACE_SIZE, |faces|);
      ChunkAt(s, FACE_SIZE, |faces|);
      var face := FillFace(s[i..i + FACE_SIZE]);
      faces := faces + [face];
      i := i + FACE_SIZE;
    }
    leftover := s[i..];
    ChunkBounds(s, FACE_SIZE, |faces|);
  }

  /** Hand a new face the blocks of a group. */
  method FillFace(group: seq<Block>) returns (face: Face)
    ensures fresh(face) && face.State() == AddAll(NewFace(), group)
  {
    face := new Face(0);
    var j := 0;
    while j < |group|
      invariant 0 <= j <= |group|
      invariant face.State() == AddAll(NewFace(), group[..j])
    {
      assert group[..j + 1][..j] == group[..j];
      var _ := face.AddBlock(group[j]);
      j := j + 1;
    }
    assert group[..j] == group;
  }
}
