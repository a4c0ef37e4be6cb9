/** Deterministic placement: blocks sorted into faces of nine, faces routed by slot into parallel cubes. */
module Assembler {
  import opened Ordering
  import opened JsMap
  import opened Hashing

  /** A block, or a container from the level below. `key` is None when it has no well-formed content key; `stamped`
      says that it carries an averaged validator timestamp. */
  datatype Member = Member(key: Option<Hash>, level: Option<int>, stamped: bool, rest: nat)
  datatype FaceBox = FaceBox(index: nat, root: Hash, members: seq<Member>)
  datatype Location = Location(faceIndex: nat, position: nat, cubeId: Short, cubeIndex: nat, level: nat)
  datatype Cube = Cube(
    id: Short, root: Hash, cubeIndex: nat, level: nat, faces: seq<FaceBox>, placements: seq<(Member, Location)>)
  datatype Placed = Placed(
    cubes: seq<Cube>, faces: seq<FaceBox>, pendingBlocks: seq<Member>, pendingFaces: seq<seq<(FaceBox, nat)>>,
    unplaceable: seq<Member>)

  // ---- order and slot ----

  function NumKey<T>(key: T -> Option<Hash>): T -> nat { x => if key(x).Some? then key(x).value else 0 }
  function Keyed<T>(key: T -> Option<Hash>): T -> bool { x => key(x).Some? }

  /** The members that have a key, by key. */
  function Ordered<T>(key: T -> Option<Hash>, ms: seq<T>): seq<T> { SortBy(NumKey(key), Keep(ms, Keyed(key))) }

  /** The low eight hex digits, modulo the number of slots. */
  function SlotOf(key: Hash, slots: nat): (r: nat)
    requires slots > 0
    ensures r < slots
  {
    (key % 0x1_0000_0000) % slots
  }

  /** Keys that agree in their low eight digits share a slot, and a key of no more digits goes by its remainder. */
  lemma SlotByLowDigits(key: Hash, slots: nat, high: nat)
    requires slots > 0
    ensures SlotOf(high * 0x1_0000_0000 + key, slots) == SlotOf(key, slots)
    ensures key < 0x1_0000_0000 ==> SlotOf(key, slots) == key % slots
  {
    var q, r := key / 0x1_0000_0000, key % 0x1_0000_0000;
    DivUnique(high * 0x1_0000_0000 + key, 0x1_0000_0000, high + q, r);
  }

  function InSlot<T>(key: T -> Option<Hash>, slots: nat, s: nat): T -> bool
    requires slots > 0
  {
    x => SlotOf(NumKey(key)(x), slots) == s
  }

  function Column<T>(key: T -> Option<Hash>, ms: seq<T>, slots: nat, s: nat): seq<T>
    requires slots > 0
  {
    Keep(Ordered(key, ms), InSlot(key, slots, s))
  }

  function Columns<T>(key: T -> Option<Hash>, ms: seq<T>, slots: nat): (r: seq<seq<T>>)
    requires slots > 0
    ensures |r| == slots
  {
    seq(slots, s requires 0 <= s < slots => Column(key, ms, slots, s))
  }

  /** The k-th row across the columns: the members present, each with its slot. */
  function RowAt<T>(cols: seq<seq<T>>, k: nat): (r: seq<(T, nat)>)
    ensures |r| <= |cols|
  {
    if cols == [] then []
    else
      var n := |cols| - 1;
      RowAt(cols[..n], k) + if k < |cols[n]| then [(cols[n][k], n)] else []
  }

  lemma {:induction false} RowIsFull<T>(cols: seq<seq<T>>, k: nat)
    ensures |RowAt(cols, k)| == |cols| <==> forall s :: 0 <= s < |cols| ==> k < |cols[s]|
    ensures |RowAt(cols, k)| == |cols| ==> forall s :: 0 <= s < |cols| ==>
      k < |cols[s]| && RowAt(cols, k)[s] == (cols[s][k], s)
  {
    if cols != [] {
      var n := |cols| - 1;
      RowIsFull(cols[..n], k);
      assert forall s :: 0 <= s < n ==> cols[..n][s] == cols[s];
    }
  }

  function MinLen<T>(cols: seq<seq<T>>): (r: nat)
    requires cols != []
    ensures forall s :: 0 <= s < |cols| ==> r <= |cols[s]|
    ensures exists s :: 0 <= s < |cols| && r == |cols[s]|
  {
    if |cols| == 1 then |cols[0]|
    else
      var m := MinLen(cols[1..]);
      assert exists s :: 0 <= s < |cols[1..]| && m == |cols[1..][s]|;
      var r := if |cols[0]| < m then |cols[0]| else m;
      assert exists s :: 0 <= s < |cols| && r == |cols[s]| by {
        if r == m {
          var s :| 0 <= s < |cols[1..]| && m == |cols[1..][s]|;
          assert |cols[s + 1]| == r;
        }
      }
      r
  }

  function MaxLen<T>(cols: seq<seq<T>>): (r: nat)
    ensures forall s :: 0 <= s < |cols| ==> |cols[s]| <= r
  {
    if cols == [] then 0
    else
      var m := MaxLen(cols[1..]);
      if |cols[0]| < m then m else |cols[0]|
  }

  // ---- the assembler as it runs ----

  /** Route every keyed member to its slot's column, in key order. */
  method Route<T>(key: T -> Option<Hash>, ms: seq<T>, slots: nat) returns (bySlot: seq<seq<T>>)
    requires slots > 0
    ensures bySlot == Columns(key, ms, slots)
  {
    var ordered := Ordered(key, ms);
    bySlot := seq(slots, s => []);
    var i := 0;
    while i < |ordered|
      invariant 0 <= i <= |ordered| && |bySlot| == slots
      invariant forall s :: 0 <= s < slots ==> bySlot[s] == Keep(ordered[..i], InSlot(key, slots, s))
    {
      var slot := SlotOf(NumKey(key)(ordered[i]), slots);
      assert ordered[..i + 1] == ordered[..i] + [ordered[i]];
      forall s | 0 <= s < slots
        ensures Keep(ordered[..i + 1], InSlot(key, slots, s)) == bySlot[s] + if s == slot then [ordered[i]] else []
      {
        KeepAppend(ordered[..i], [ordered[i]], InSlot(key, slots, s));
        KeepStep([ordered[i]], InSlot(key, slots, s));
        assert [ordered[i]][1..] == [];
      }
      bySlot := bySlot[slot := bySlot[slot] + [ordered[i]]];
      i := i + 1;
    }
    assert ordered[..i] == ordered;
  }

  method ReadRow<T>(cols: seq<seq<T>>, k: nat) returns (row: seq<(T, nat)>)
    ensures row == RowAt(cols, k)
  {
    row := [];
    var s := 0;
    while s < |cols|
      invariant 0 <= s <= |cols|
      invariant row == RowAt(cols[..s], k)
    {
      assert cols[..s + 1][..s] == cols[..s];
      if k < |cols[s]| { row := row + [(cols[s][k], s)]; }
      s := s + 1;
    }
    assert cols[..s] == cols;
  }

  /** Exactly as many containers are complete as the shortest column has members: container k holds the k-th member of
      every slot. The rest stays open, in order. */
  method Assemble<T>(key: T -> Option<Hash>, ms: seq<T>, slots: nat)
      returns (complete: seq<seq<(T, nat)>>, open: seq<seq<(T, nat)>>)
    requires slots > 0
    ensures complete == CompleteRows(Columns(key, ms, slots)) && open == OpenRows(Columns(key, ms, slots))
  {
    hide RowAt, Columns;
    var bySlot := Route(key, ms, slots);
    var depth := MaxLen(bySlot);
    complete, open := [], [];
    var least := MinLen(bySlot);
    assert least <= depth by { assert least <= |bySlot[0]|; }
    var k := 0;
    while k < depth
      invariant 0 <= k <= depth
      invariant |complete| == if k < least then k else least
      invariant |open| == k - |complete|
      invariant forall j :: 0 <= j < |complete| ==> complete[j] == RowAt(bySlot, j)
      invariant forall j :: 0 <= j < |open| ==> open[j] == RowAt(bySlot, least + j)
    {
      var row := ReadRow(bySlot, k);
      RowIsFull(bySlot, k);
      if |row| == slots { complete := complete + [row]; } else { open := open + [row]; }
      k := k + 1;
    }
  }

  /** The first rows, one for each member of the shortest column, and the rows after them. */
  function CompleteRows<T>(cols: seq<seq<T>>): (r: seq<seq<(T, nat)>>)
    requires cols != []
  {
    seq(MinLen(cols), k requires 0 <= k < MinLen(cols) => RowAt(cols, k))
  }

  function OpenRows<T>(cols: seq<seq<T>>): (r: seq<seq<(T, nat)>>)
    requires cols != []
  {
    assert MinLen(cols) <= |cols[0]| <= MaxLen(cols);
    seq(MaxLen(cols) - MinLen(cols), j requires 0 <= j < MaxLen(cols) - MinLen(cols) => RowAt(cols, MinLen(cols) + j))
  }

  // ---- order does not matter ----

  /** Only the set of keyed members decides their order, when keys are distinct. */
  lemma OrderedIsOrderFree<T>(key: T -> Option<Hash>, a: seq<T>, b: seq<T>)
    requires multiset(a) == multiset(b) && Distinct(KeysOf(NumKey(key), Ordered(key, a)))
    ensures Ordered(key, a) == Ordered(key, b)
  {
    var ka, kb := Keep(a, Keyed(key)), Keep(b, Keyed(key));
    KeepMultiset(a, b, Keyed(key));
    SortBySorts(NumKey(key), ka);
    SortBySorts(NumKey(key), kb);
    SortedByUnique(NumKey(key), Ordered(key, a), Ordered(key, b));
  }

  // ---- blocks to faces to cubes ----

  function MemberKey(m: Member): Option<Hash> { m.key }

  function FaceKey(f: FaceBox): Option<Hash> { Some(f.root) }

  predicate IsPlaceable(m: Member) { m.key.Some? && ((m.level.Some? && m.level.value > 1) || m.stamped) }

  predicate IsUnplaceable(m: Member) { !IsPlaceable(m) }

  function Placeable(blocks: seq<Member>): seq<Member> { Ordered(MemberKey, Keep(blocks, IsPlaceable)) }

  function BoxOf(H: Hasher, chunk: seq<Member>, index: nat): FaceBox
    requires |chunk| == FACE_SIZE
  {
    FaceBox(index, FaceRootOf(H, KeysOf(NumKey(MemberKey), chunk)), chunk)
  }

  function Boxes(H: Hasher, chunks: seq<seq<Member>>, start: nat): (r: seq<FaceBox>)
    requires forall i :: 0 <= i < |chunks| ==> |chunks[i]| == FACE_SIZE
    ensures |r| == |chunks|
  {
    seq(|chunks|, i requires 0 <= i < |chunks| => BoxOf(H, chunks[i], start + i))
  }

  /** The line: every block with a content key that is stamped or comes from a level above 1, as often as it was
      given, in ascending key order. */
  ghost predicate IsLine(blocks: seq<Member>, line: seq<Member>) {
    KeysAscend(line) && forall x: Member :: multiset(line)[x] == if Belongs(x) then multiset(blocks)[x] else 0
  }

  ghost predicate Belongs(x: Member) { x.key.Some? && (x.stamped || (x.level.Some? && x.level.value > 1)) }

  ghost predicate KeysAscend(line: seq<Member>) {
    && (forall i :: 0 <= i < |line| ==> line[i].key.Some?)
    && forall i, j :: 0 <= i < j < |line| ==> line[i].key.value <= line[j].key.value
  }

  /** Consecutive nines of the line fill the faces, numbered from `start`; the rest waits. */
  ghost predicate FacesOfLine(H: Hasher, line: seq<Member>, start: nat, faces: seq<FaceBox>, pending: seq<Member>) {
    && |line| == |faces| * FACE_SIZE + |pending| && |pending| < FACE_SIZE
    && pending == line[|faces| * FACE_SIZE..]
    && forall i :: 0 <= i < |faces| ==> IsFaceAt(H, line, start, faces, i)
  }

  ghost predicate IsFaceAt(H: Hasher, line: seq<Member>, start: nat, faces: seq<FaceBox>, i: nat)
    requires i < |faces| && |faces| * FACE_SIZE <= |line|
  {
    && faces[i].index == start + i
    && faces[i].members == line[i * FACE_SIZE..(i + 1) * FACE_SIZE]
    && faces[i].root == FaceRootOf(H, KeysOf(NumKey(MemberKey), faces[i].members))
  }

  lemma KeyedPlaceable(blocks: seq<Member>)
    ensures Keep(Keep(blocks, IsPlaceable), Keyed(MemberKey)) == Keep(blocks, IsPlaceable)
  {
    KeepElements(blocks, IsPlaceable);
    forall x | x in Keep(blocks, IsPlaceable) ensures Keyed(MemberKey)(x) {
      assert IsPlaceable(x) && MemberKey(x).Some?;
    }
    KeepAll(Keep(blocks, IsPlaceable), Keyed(MemberKey));
  }

  lemma PlaceableIsLine(blocks: seq<Member>)
    ensures IsLine(blocks, Placeable(blocks))
  {
    hide Keep, SortBy;
    var kept, line := Keep(blocks, IsPlaceable), Placeable(blocks);
    KeyedPlaceable(blocks);
    SortBySorts(NumKey(MemberKey), kept);
    forall x: Member ensures multiset(line)[x] == if Belongs(x) then multiset(blocks)[x] else 0 {
      KeepCount(blocks, IsPlaceable, x);
    }
    hide Placeable, Ordered;
    SortedKeysAscend(line);
  }

  lemma SortedKeysAscend(line: seq<Member>)
    requires SortedBy(NumKey(MemberKey), line) && forall x: Member :: multiset(line)[x] > 0 ==> Belongs(x)
    ensures KeysAscend(line)
  {
    forall i | 0 <= i < |line| ensures line[i].key.Some? && NumKey(MemberKey)(line[i]) == line[i].key.value {
      assert multiset(line)[line[i]] > 0;
      assert Belongs(line[i]) && MemberKey(line[i]) == line[i].key;
    }
  }

  method PlaceFaces(H: Hasher, blocks: seq<Member>, start: nat)
      returns (faces: seq<FaceBox>, pending: seq<Member>, unplaceable: seq<Member>)
    ensures faces == Boxes(H, Chunks(Placeable(blocks), FACE_SIZE), start)
    ensures pending == Tail(Placeable(blocks), FACE_SIZE) && |pending| < FACE_SIZE
    ensures unplaceable == Keep(blocks, IsUnplaceable)
    ensures exists line :: IsLine(blocks, line) && FacesOfLine(H, line, start, faces, pending)
    ensures forall m :: m in unplaceable <==> m in blocks && !Belongs(m)
  {
    hide Placeable, IsLine, FacesOfLine, Boxes;
    PlaceableIsLine(blocks);
    BoxesOfLine(H, Placeable(blocks), start);
    KeepElements(blocks, IsUnplaceable);
    faces, pending, unplaceable := FillBoxes(H, blocks, start);
  }

  /** Step through the line by nines. */
  method FillBoxes(H: Hasher, blocks: seq<Member>, start: nat)
      returns (faces: seq<FaceBox>, pending: seq<Member>, unplaceable: seq<Member>)
    ensures faces == Boxes(H, Chunks(Placeable(blocks), FACE_SIZE), start)
    ensures pending == Tail(Placeable(blocks), FACE_SIZE) && |pending| < FACE_SIZE
    ensures unplaceable == Keep(blocks, IsUnplaceable)
  {
    var ordered := Placeable(blocks);
    faces := [];
    var i := 0;
    while i + FACE_SIZE <= |ordered|
      invariant 0 <= i <= |ordered| && i == |faces| * FACE_SIZE && |faces| <= |Chunks(ordered, FACE_SIZE)|
      invariant faces == Boxes(H, Chunks(ordered, FACE_SIZE), start)[..|faces|]
    {
      ChunkBounds(ordered, FACE_SIZE, |faces|);
      ChunkAt(ordered, FACE_SIZE, |faces|);
      var chunk := ordered[i..i + FACE_SIZE];
      faces := faces + [FaceBox(start + |faces|, FaceRootOf(H, KeysOf(NumKey(MemberKey), chunk)), chunk)];
      i := i + FACE_SIZE;
    }
    ChunkBounds(ordered, FACE_SIZE, |faces|);
    pending := ordered[i..];
    unplaceable := Keep(blocks, IsUnplaceable);
  }

  lemma BoxesOfLine(H: Hasher, line: seq<Member>, start: nat)
    ensures FacesOfLine(H, line, start, Boxes(H, Chunks(line, FACE_SIZE), start), Tail(line, FACE_SIZE))
  {
    var boxes := Boxes(H, Chunks(line, FACE_SIZE), start);
    ChunkBounds(line, FACE_SIZE, |boxes|);
    forall i | 0 <= i < |boxes| ensures IsFaceAt(H, line, start, boxes, i) { ChunkAt(line, FACE_SIZE, i); }
  }

  function Tail<T>(s: seq<T>, c: nat): (r: seq<T>)
    requires c > 0
  {
    ChunkBounds(s, c, |Chunks(s, c)|);
    s[|Chunks(s, c)| * c..]
  }

  /** The blocks of one face, with their locations. */
  function FacePlacements(f: FaceBox, slot: nat, id: Short, cubeIndex: nat, level: nat): (r: seq<(Member, Location)>)
    ensures |r| == |f.members|
  {
    seq(|f.members|, p requires 0 <= p < |f.members| => (f.members[p], Location(slot, p, id, cubeIndex, level)))
  }

  function RowPlacements(row: seq<(FaceBox, nat)>, id: Short, cubeIndex: nat, level: nat): seq<(Member, Location)> {
    if row == [] then []
    else
      var n := |row| - 1;
      RowPlacements(row[..n], id, cubeIndex, level) + FacePlacements(row[n].0, row[n].1, id, cubeIndex, level)
  }

  function CubeOf(H: Hasher, row: seq<(FaceBox, nat)>, cubeIndex: nat, level: nat): Cube
    requires |row| == CUBE_SLOTS
  {
    var roots := [row[0].0.root, row[1].0.root, row[2].0.root];
    var id := CubeIdOf(H, roots);
    Cube(id, CubeRootOf(H, roots), cubeIndex, level, [row[0].0, row[1].0, row[2].0],
      RowPlacements(row, id, cubeIndex, level))
  }

  method PlaceRow(row: seq<(FaceBox, nat)>, id: Short, cubeIndex: nat, level: nat)
      returns (placements: seq<(Member, Location)>)
    ensures placements == RowPlacements(row, id, cubeIndex, level)
  {
    placements := [];
    var i := 0;
    while i < |row|
      invariant 0 <= i <= |row|
      invariant placements == RowPlacements(row[..i], id, cubeIndex, level)
    {
      var (face, slot) := row[i];
      ghost var was := placements;
      ghost var all := FacePlacements(face, slot, id, cubeIndex, level);
      assert row[..i + 1][..i] == row[..i];
      var p := 0;
      while p < |face.members|
        invariant 0 <= p <= |face.members|
        invariant placements == was + all[..p]
      {
        placements := placements + [(face.members[p], Location(slot, p, id, cubeIndex, level))];
        p := p + 1;
      }
      assert all[..p] == all;
      i := i + 1;
    }
    assert row[..i] == row;
  }

  lemma CompleteRowsFull<T>(cols: seq<seq<T>>)
    requires cols != []
    ensures forall k :: 0 <= k < |CompleteRows(cols)| ==> |CompleteRows(cols)[k]| == |cols|
  {
    forall k | 0 <= k < |CompleteRows(cols)| ensures |CompleteRows(cols)[k]| == |cols| { RowIsFull(cols, k); }
  }

  function Cubes(H: Hasher, cols: seq<seq<FaceBox>>, start: nat, level: nat): (r: seq<Cube>)
    requires |cols| == CUBE_SLOTS
    ensures |r| == |CompleteRows(cols)|
  {
    CompleteRowsFull(cols);
    seq(|CompleteRows(cols)|, k requires 0 <= k < |CompleteRows(cols)| =>
      CubeOf(H, CompleteRows(cols)[k], start + k, level))
  }

  /** A cube carries its number and level, and its id and root are those of its own three faces. */
  ghost predicate CubeIsNamed(H: Hasher, cube: Cube, cubeIndex: nat, level: nat) {
    && |cube.faces| == CUBE_SLOTS && cube.cubeIndex == cubeIndex && cube.level == level
    && var roots := [cube.faces[0].root, cube.faces[1].root, cube.faces[2].root];
       cube.id == CubeIdOf(H, roots) && cube.root == CubeRootOf(H, roots)
  }

  method PlaceCube(H: Hasher, row: seq<(FaceBox, nat)>, cubeIndex: nat, level: nat) returns (cube: Cube)
    requires |row| == CUBE_SLOTS
    ensures cube == CubeOf(H, row, cubeIndex, level)
    ensures cube.faces == [row[0].0, row[1].0, row[2].0] && CubeIsNamed(H, cube, cubeIndex, level)
  {
    var roots := [row[0].0.root, row[1].0.root, row[2].0.root];
    var id := CubeIdOf(H, roots);
    var placements := PlaceRow(row, id, cubeIndex, level);
    cube := Cube(id, CubeRootOf(H, roots), cubeIndex, level, [row[0].0, row[1].0, row[2].0], placements);
  }

  method PlaceCubes(H: Hasher, faces: seq<FaceBox>, start: nat, level: nat)
      returns (cubes: seq<Cube>, pending: seq<seq<(FaceBox, nat)>>)
    ensures cubes == Cubes(H, Columns(FaceKey, faces, CUBE_SLOTS), start, level)
    ensures pending == OpenRows(Columns(FaceKey, faces, CUBE_SLOTS))
    ensures forall k :: 0 <= k < |cubes| ==> CubeIsNamed(H, cubes[k], start + k, level)
  {
    hide CubeOf, RowAt, OpenRows, Column;
    var complete, open := Assemble(FaceKey, faces, CUBE_SLOTS);
    ghost var cols := Columns(FaceKey, faces, CUBE_SLOTS);
    CompleteRowsFull(cols);
    cubes := [];
    var k := 0;
    while k < |complete|
      invariant 0 <= k <= |complete| && |cubes| == k
      invariant forall j :: 0 <= j < k ==> cubes[j] == CubeOf(H, complete[j], start + j, level)
      invariant forall j :: 0 <= j < k ==> CubeIsNamed(H, cubes[j], start + j, level)
    {
      var cube := PlaceCube(H, complete[k], start + k, level);
      cubes := cubes + [cube];
      k := k + 1;
    }
    pending := open;
  }

  function PlaceAll(H: Hasher, blocks: seq<Member>, startFace: nat, startCube: nat, level: nat): Placed {
    var faces := Boxes(H, Chunks(Placeable(blocks), FACE_SIZE), startFace);
    var cols := Columns(FaceKey, faces, CUBE_SLOTS);
    Placed(Cubes(H, cols, startCube, level), faces, Tail(Placeable(blocks), FACE_SIZE), OpenRows(cols),
      Keep(blocks, IsUnplaceable))
  }

  method Place(H: Hasher, blocks: seq<Member>, startFace: nat, startCube: nat, level: nat) returns (r: Placed)
    ensures r == PlaceAll(H, blocks, startFace, startCube, level)
  {
    var faces, pendingBlocks, bad := PlaceFaces(H, blocks, startFace);
    var cubes, pendingFaces := PlaceCubes(H, faces, startCube, level);
    r := Placed(cubes, faces, pendingBlocks, pendingFaces, bad);
  }

  // ---- what placement promises ----

  /** No two placeable blocks share a content key. */
  ghost predicate DistinctKeys(blocks: seq<Member>) {
    DistinctBy(NumKey(MemberKey), Keep(blocks, IsPlaceable))
  }

  /** Placement is a function of the set of blocks: any arrival order gives the same cubes, faces and remainders, and
      sets the same blocks aside. */
  lemma PlaceIsOrderFree(H: Hasher, a: seq<Member>, b: seq<Member>, startFace: nat, startCube: nat, level: nat)
    requires multiset(a) == multiset(b) && DistinctKeys(a)
    ensures var pa, pb := PlaceAll(H, a, startFace, startCube, level), PlaceAll(H, b, startFace, startCube, level);
      pa == pb.(unplaceable := pa.unplaceable) && multiset(pa.unplaceable) == multiset(pb.unplaceable)
  {
    KeepMultiset(a, b, IsUnplaceable);
    var pa, pb := Keep(a, IsPlaceable), Keep(b, IsPlaceable);
    KeepMultiset(a, b, IsPlaceable);
    KeyedPlaceable(a);
    KeysDistinct(NumKey(MemberKey), pa);
    SortBySorts(NumKey(MemberKey), pa);
    KeysMultiset(NumKey(MemberKey), pa, Placeable(a));
    DistinctFromMultiset(KeysOf(NumKey(MemberKey), pa), KeysOf(NumKey(MemberKey), Placeable(a)));
    OrderedIsOrderFree(MemberKey, pa, pb);
  }

  /** Everything a sequence of containers holds. */
  ghost function Weigh<T, U>(s: seq<T>, w: T -> multiset<U>): multiset<U> {
    if s == [] then multiset{} else Weigh(s[..|s| - 1], w) + w(s[|s| - 1])
  }

  ghost function FaceBlocks(f: FaceBox): multiset<Member> { multiset(f.members) }
  ghost function CubeBlocks(c: Cube): multiset<Member> { Weigh(c.faces, FaceBlocks) }

  function FacesOfRow<T>(row: seq<(T, nat)>): (r: seq<T>)
    ensures |r| == |row|
  {
    seq(|row|, i requires 0 <= i < |row| => row[i].0)
  }

  lemma {:induction false} WeighAppend<T, U>(a: seq<T>, b: seq<T>, w: T -> multiset<U>)
    ensures Weigh(a + b, w) == Weigh(a, w) + Weigh(b, w)
  {
    if b == [] {
      assert a + b == a;
    } else {
      var n := |b| - 1;
      WeighAppend(a, b[..n], w);
      assert (a + b)[..|a| + n] == a + b[..n];
    }
  }

  lemma WeighOne<T, U>(x: T, w: T -> multiset<U>)
    ensures Weigh([x], w) == w(x)
  {
    assert [x][..0] == [];
    assert Weigh([], w) == multiset{};
  }

  lemma {:induction false} WeighInsert<T, U>(key: T -> nat, x: T, s: seq<T>, w: T -> multiset<U>)
    ensures Weigh(InsertBy(key, x, s), w) == Weigh(s, w) + w(x)
  {
    WeighOne(x, w);
    if s == [] {
    } else if key(x) <= key(s[0]) {
      WeighAppend([x], s, w);
    } else {
      WeighInsert(key, x, s[1..], w);
      WeighAppend([s[0]], InsertBy(key, x, s[1..]), w);
      WeighAppend([s[0]], s[1..], w);
      assert s == [s[0]] + s[1..];
    }
  }

  lemma {:induction false} WeighSort<T, U>(key: T -> nat, s: seq<T>, w: T -> multiset<U>)
    ensures Weigh(SortBy(key, s), w) == Weigh(s, w)
  {
    if s != [] {
      WeighSort(key, s[1..], w);
      WeighInsert(key, s[0], SortBy(key, s[1..]), w);
      WeighOne(s[0], w);
      WeighAppend([s[0]], s[1..], w);
      assert s == [s[0]] + s[1..];
    }
  }

  /** Each ordered member stands in exactly one column. */
  lemma {:induction false} ColumnsHoldAll<T, U>(key: T -> Option<Hash>, s: seq<T>, slots: nat, w: T -> multiset<U>)
    requires slots > 0
    ensures Weigh(Split(key, s, slots, slots), Held(w)) == Weigh(s, w)
  {
    if s == [] {
      EmptySplit(key, slots, slots, w);
    } else {
      var n := |s| - 1;
      ColumnsHoldAll(key, s[..n], slots, w);
      assert s == s[..n] + [s[n]];
      SplitStep(key, s[..n], s[n], slots, slots, w);
    }
  }

  ghost function Held<T, U>(w: T -> multiset<U>): seq<T> -> multiset<U> { s => Weigh(s, w) }

  /** The first n columns of an ordered sequence. */
  function Split<T>(key: T -> Option<Hash>, s: seq<T>, slots: nat, n: nat): (r: seq<seq<T>>)
    requires slots > 0
    ensures |r| == n
  {
    seq(n, i requires 0 <= i < n => Keep(s, InSlot(key, slots, i)))
  }

  lemma {:induction false} EmptySplit<T, U>(key: T -> Option<Hash>, slots: nat, n: nat, w: T -> multiset<U>)
    requires slots > 0
    ensures Weigh(Split(key, [], slots, n), Held(w)) == multiset{}
  {
    if n > 0 {
      EmptySplit(key, slots, n - 1, w);
      assert Split(key, [], slots, n)[..n - 1] == Split(key, [], slots, n - 1);
      assert Weigh([], w) == multiset{};
    }
  }

  lemma {:induction false} SplitStep<T, U>(key: T -> Option<Hash>, s: seq<T>, x: T, slots: nat, n: nat,
        w: T -> multiset<U>)
    requires slots > 0 && n <= slots
    ensures Weigh(Split(key, s + [x], slots, n), Held(w)) ==
      Weigh(Split(key, s, slots, n), Held(w)) + (if SlotOf(NumKey(key)(x), slots) < n then w(x) else multiset{})
  {
    if n > 0 {
      SplitStep(key, s, x, slots, n - 1, w);
      assert Split(key, s + [x], slots, n)[..n - 1] == Split(key, s + [x], slots, n - 1);
      assert Split(key, s, slots, n)[..n - 1] == Split(key, s, slots, n - 1);
      var p := InSlot(key, slots, n - 1);
      KeepAppend(s, [x], p);
      KeepStep([x], p);
      assert [x][1..] == [];
      WeighAppend(Keep(s, p), Keep([x], p), w);
      WeighOne(x, w);
      assert Weigh([], w) == multiset{};
    }
  }

  /** Reading by rows or by columns counts the same members. */
  ghost function RowsTo<T>(cols: seq<seq<T>>, d: nat): (r: seq<seq<(T, nat)>>)
    ensures |r| == d
  {
    seq(d, k requires 0 <= k < d => RowAt(cols, k))
  }

  ghost function RowHeld<T, U>(w: T -> multiset<U>): seq<(T, nat)> -> multiset<U> { row => Weigh(FacesOfRow(row), w) }

  lemma {:induction false} RowsHoldColumns<T, U>(cols: seq<seq<T>>, d: nat, w: T -> multiset<U>)
    requires forall s :: 0 <= s < |cols| ==> |cols[s]| <= d
    ensures Weigh(RowsTo(cols, d), RowHeld(w)) == Weigh(cols, Held(w))
  {
    if cols == [] {
      EmptyRows<T, U>(d, w);
    } else {
      var n := |cols| - 1;
      RowsHoldColumns(cols[..n], d, w);
      LastColumn(cols, d, w);
      assert Prefix(cols[n], d) == cols[n];
    }
  }

  lemma {:induction false} EmptyRows<T, U>(d: nat, w: T -> multiset<U>)
    ensures Weigh(RowsTo<T>([], d), RowHeld(w)) == multiset{}
  {
    if d > 0 {
      EmptyRows<T, U>(d - 1, w);
      assert RowsTo<T>([], d)[..d - 1] == RowsTo<T>([], d - 1);
      assert Weigh(FacesOfRow<T>([]), w) == multiset{};
    }
  }

  ghost function Prefix<T>(s: seq<T>, d: nat): seq<T> { if d < |s| then s[..d] else s }

  lemma {:induction false} LastColumn<T, U>(cols: seq<seq<T>>, d: nat, w: T -> multiset<U>)
    requires cols != []
    ensures Weigh(RowsTo(cols, d), RowHeld(w)) ==
      Weigh(RowsTo(cols[..|cols| - 1], d), RowHeld(w)) + Weigh(Prefix(cols[|cols| - 1], d), w)
  {
    var front, last := cols[..|cols| - 1], cols[|cols| - 1];
    if d == 0 {
      assert Prefix(last, 0) == [];
      assert RowsTo(cols, 0) == [] && RowsTo(front, 0) == [];
    } else {
      hide Weigh, RowAt, RowHeld, Prefix, RowsTo;
      LastColumn(cols, d - 1, w);
      RowsStep(cols, d, w);
      RowsStep(front, d, w);
      LastEntry(cols, d - 1, w);
      Regroup(Weigh(RowsTo(cols, d - 1), RowHeld(w)), Weigh(RowsTo(front, d - 1), RowHeld(w)),
        Weigh(Prefix(last, d - 1), w),
        RowHeld(w)(RowAt(cols, d - 1)), RowHeld(w)(RowAt(front, d - 1)), Weigh(Prefix(last, d), w));
    }
  }

  lemma Regroup<U>(a: multiset<U>, b: multiset<U>, p: multiset<U>, r: multiset<U>, q: multiset<U>, p': multiset<U>)
    requires a == b + p && r + p == q + p'
    ensures a + r == b + q + p'
  {
    assert a + r == b + (r + p);
  }

  lemma RowsStep<T, U>(cols: seq<seq<T>>, d: nat, w: T -> multiset<U>)
    requires d > 0
    ensures Weigh(RowsTo(cols, d), RowHeld(w)) == Weigh(RowsTo(cols, d - 1), RowHeld(w)) +
      RowHeld(w)(RowAt(cols, d - 1))
  {
    assert RowsTo(cols, d)[..d - 1] == RowsTo(cols, d - 1);
  }

  /** One row more: what the last column adds to it. */
  lemma LastEntry<T, U>(cols: seq<seq<T>>, k: nat, w: T -> multiset<U>)
    requires cols != []
    ensures RowHeld(w)(RowAt(cols, k)) + Weigh(Prefix(cols[|cols| - 1], k), w) ==
      RowHeld(w)(RowAt(cols[..|cols| - 1], k)) + Weigh(Prefix(cols[|cols| - 1], k + 1), w)
  {
    hide Weigh;
    var n := |cols| - 1;
    var last, row := cols[n], RowAt(cols[..n], k);
    if k < |last| {
      var entry := (last[k], n);
      assert RowAt(cols, k) == row + [entry];
      hide RowAt;
      assert FacesOfRow(row + [entry]) == FacesOfRow(row) + [last[k]];
      assert Prefix(last, k + 1) == Prefix(last, k) + [last[k]];
      hide Prefix, FacesOfRow;
      WeighAppend(FacesOfRow(row), [last[k]], w);
      WeighAppend(Prefix(last, k), [last[k]], w);
    } else {
      assert RowAt(cols, k) == row;
    }
  }

  /** No member is lost: the complete and the open containers hold, between them, each keyed member once. */
  lemma AssembleConserves<T, U>(key: T -> Option<Hash>, ms: seq<T>, slots: nat, w: T -> multiset<U>)
    requires slots > 0
    ensures var cols := Columns(key, ms, slots);
      Weigh(CompleteRows(cols), RowHeld(w)) + Weigh(OpenRows(cols), RowHeld(w)) == Weigh(Keep(ms, Keyed(key)), w)
  {
    var cols := Columns(key, ms, slots);
    var s := Ordered(key, ms);
    assert cols == Split(key, s, slots, slots);
    ColumnsHoldAll(key, s, slots, w);
    WeighSort(NumKey(key), Keep(ms, Keyed(key)), w);
    RowsHoldColumns(cols, MaxLen(cols), w);
    CompleteThenOpen(cols);
    WeighAppend(CompleteRows(cols), OpenRows(cols), RowHeld(w));
  }

  lemma CompleteThenOpen<T>(cols: seq<seq<T>>)
    requires cols != []
    ensures RowsTo(cols, MaxLen(cols)) == CompleteRows(cols) + OpenRows(cols)
  {
    assert MinLen(cols) <= |cols[0]| <= MaxLen(cols);
  }

  lemma {:induction false} BoxesHoldChunks(H: Hasher, s: seq<Member>, start: nat)
    ensures Weigh(Boxes(H, Chunks(s, FACE_SIZE), start), FaceBlocks) + multiset(Tail(s, FACE_SIZE)) == multiset(s)
  {
    if |s| < FACE_SIZE {
      assert Boxes(H, Chunks(s, FACE_SIZE), start) == [];
      assert Tail(s, FACE_SIZE) == s;
    } else {
      var rest := s[FACE_SIZE..];
      var boxes, more := Boxes(H, Chunks(s, FACE_SIZE), start), Boxes(H, Chunks(rest, FACE_SIZE), start + 1);
      BoxesHoldChunks(H, rest, start + 1);
      assert boxes == [boxes[0]] + more && boxes[0].members == s[..FACE_SIZE] by { BoxesStep(H, s, start); }
      WeighAppend([boxes[0]], more, FaceBlocks);
      WeighOne(boxes[0], FaceBlocks);
      TailStep(s);
      assert s == s[..FACE_SIZE] + rest;
    }
  }

  lemma BoxesCons(H: Hasher, head: seq<Member>, more: seq<seq<Member>>, start: nat)
    requires |head| == FACE_SIZE && forall i :: 0 <= i < |more| ==> |more[i]| == FACE_SIZE
    ensures Boxes(H, [head] + more, start) == [BoxOf(H, head, start)] + Boxes(H, more, start + 1)
  {
    hide BoxOf;
    var all := [head] + more;
    assert forall i :: 0 < i < |all| ==> all[i] == more[i - 1];
  }

  lemma BoxesStep(H: Hasher, s: seq<Member>, start: nat)
    requires |s| >= FACE_SIZE
    ensures var boxes := Boxes(H, Chunks(s, FACE_SIZE), start);
      |boxes| > 0 && boxes[0].members == s[..FACE_SIZE] &&
        boxes == [boxes[0]] + Boxes(H, Chunks(s[FACE_SIZE..], FACE_SIZE), start + 1)
  {
    assert Chunks(s, FACE_SIZE) == [s[..FACE_SIZE]] + Chunks(s[FACE_SIZE..], FACE_SIZE);
    assert BoxOf(H, s[..FACE_SIZE], start).members == s[..FACE_SIZE];
    hide Boxes, BoxOf, Chunks;
    BoxesCons(H, s[..FACE_SIZE], Chunks(s[FACE_SIZE..], FACE_SIZE), start);
  }

  lemma TailStep(s: seq<Member>)
    requires |s| >= FACE_SIZE
    ensures Tail(s, FACE_SIZE) == Tail(s[FACE_SIZE..], FACE_SIZE)
  {
    var rest := s[FACE_SIZE..];
    ChunkBounds(s, FACE_SIZE, |Chunks(s, FACE_SIZE)|);
    ChunkBounds(rest, FACE_SIZE, |Chunks(rest, FACE_SIZE)|);
    assert |Chunks(s, FACE_SIZE)| == |Chunks(rest, FACE_SIZE)| + 1;
  }

  lemma {:induction false} CubesHoldRows(H: Hasher, rows: seq<seq<(FaceBox, nat)>>, cubes: seq<Cube>)
    requires |rows| == |cubes|
    requires forall k :: 0 <= k < |rows| ==> |rows[k]| == CUBE_SLOTS
    requires forall k :: 0 <= k < |rows| ==> cubes[k].faces == FacesOfRow(rows[k])
    ensures Weigh(cubes, CubeBlocks) == Weigh(rows, RowHeld(FaceBlocks))
  {
    if rows != [] { CubesHoldRows(H, rows[..|rows| - 1], cubes[..|cubes| - 1]); }
  }

  /** Nothing is lost and nothing is placed twice: cubes, open rows, the block remainder and the unplaceable blocks
      hold the input between them, with multiplicity. */
  lemma PlaceLosesNothing(H: Hasher, blocks: seq<Member>, startFace: nat, startCube: nat, level: nat)
    ensures var r := PlaceAll(H, blocks, startFace, startCube, level);
      Weigh(r.cubes, CubeBlocks) + Weigh(r.pendingFaces, RowHeld(FaceBlocks)) + multiset(r.pendingBlocks)
        + multiset(r.unplaceable) == multiset(blocks)
  {
    hide Placeable, Columns, CompleteRows, OpenRows, Weigh, Boxes, Tail;
    var faces := Boxes(H, Chunks(Placeable(blocks), FACE_SIZE), startFace);
    CubesHoldFaces(H, faces, startCube, level);
    BoxesHoldChunks(H, Placeable(blocks), startFace);
    PlaceableHolds(blocks);
    KeepPartition(blocks, IsPlaceable, IsUnplaceable);
  }

  lemma CubesHoldFaces(H: Hasher, faces: seq<FaceBox>, start: nat, level: nat)
    ensures var cols := Columns(FaceKey, faces, CUBE_SLOTS);
      Weigh(Cubes(H, cols, start, level), CubeBlocks) + Weigh(OpenRows(cols), RowHeld(FaceBlocks)) ==
        Weigh(faces, FaceBlocks)
  {
    hide Weigh, Columns, OpenRows, RowPlacements, CubeRootOf, CubeIdOf;
    var cols := Columns(FaceKey, faces, CUBE_SLOTS);
    forall f | f in faces ensures Keyed(FaceKey)(f) { assert FaceKey(f).Some?; }
    KeepAll(faces, Keyed(FaceKey));
    AssembleConserves(FaceKey, faces, CUBE_SLOTS, FaceBlocks);
    CompleteRowsFull(cols);
    CubesHoldRows(H, CompleteRows(cols), Cubes(H, cols, start, level));
  }

  lemma PlaceableHolds(blocks: seq<Member>)
    ensures multiset(Placeable(blocks)) == multiset(Keep(blocks, IsPlaceable))
  {
    KeyedPlaceable(blocks);
    SortBySorts(NumKey(MemberKey), Keep(blocks, IsPlaceable));
  }

  lemma CubeFace(H: Hasher, cols: seq<seq<FaceBox>>, start: nat, level: nat, k: nat, s: nat)
    requires |cols| == CUBE_SLOTS && s < CUBE_SLOTS && k < |Cubes(H, cols, start, level)|
    ensures var c := Cubes(H, cols, start, level)[k];
      k < |cols[s]| && |c.faces| == CUBE_SLOTS && c.faces[s] == cols[s][k]
  {
    hide CubeIdOf, CubeRootOf, RowPlacements, RowAt;
    CompleteRowsFull(cols);
    RowIsFull(cols, k);
  }

  lemma InColumn(faces: seq<FaceBox>, s: nat, k: nat)
    requires s < CUBE_SLOTS && k < |Column(FaceKey, faces, CUBE_SLOTS, s)|
    ensures var f := Column(FaceKey, faces, CUBE_SLOTS, s)[k]; f in faces && SlotOf(f.root, CUBE_SLOTS) == s
  {
    ColumnFacts(FaceKey, faces, CUBE_SLOTS, s);
    var f := Column(FaceKey, faces, CUBE_SLOTS, s)[k];
    assert f in multiset(Column(FaceKey, faces, CUBE_SLOTS, s));
    KeepElements(Keep(faces, Keyed(FaceKey)), InSlot(FaceKey, CUBE_SLOTS, s));
    KeepElements(faces, Keyed(FaceKey));
    assert f in Keep(Keep(faces, Keyed(FaceKey)), InSlot(FaceKey, CUBE_SLOTS, s));
    assert NumKey(FaceKey)(f) == f.root;
  }

  /** Cube k takes from each slot its k-th face by root: the face in slot s has root s modulo 3 (by its low digits), and
      later cubes take later faces. */
  lemma CubesFollowSlots(H: Hasher, faces: seq<FaceBox>, start: nat, level: nat, k: nat, m: nat, s: nat)
    requires s < CUBE_SLOTS && k < m < |Cubes(H, Columns(FaceKey, faces, CUBE_SLOTS), start, level)|
    ensures var cubes := Cubes(H, Columns(FaceKey, faces, CUBE_SLOTS), start, level);
      && |cubes[k].faces| == |cubes[m].faces| == CUBE_SLOTS
      && cubes[k].faces[s] in faces && SlotOf(cubes[k].faces[s].root, CUBE_SLOTS) == s
      && cubes[k].faces[s].root <= cubes[m].faces[s].root
  {
    hide Column, Cubes;
    var cols := Columns(FaceKey, faces, CUBE_SLOTS);
    CubeFace(H, cols, start, level, k, s);
    CubeFace(H, cols, start, level, m, s);
    InColumn(faces, s, k);
    ColumnFacts(FaceKey, faces, CUBE_SLOTS, s);
    assert NumKey(FaceKey)(cols[s][k]) == cols[s][k].root && NumKey(FaceKey)(cols[s][m]) == cols[s][m].root;
  }

  /** Every block of a cube is placed once: position p of the face in slot s. */
  lemma {:induction false} RowPlacesEach(row: seq<(FaceBox, nat)>, id: Short, cubeIndex: nat, level: nat, s: nat,
        p: nat)
    requires forall i :: 0 <= i < |row| ==> |row[i].0.members| == FACE_SIZE
    requires s < |row| && p < FACE_SIZE
    ensures var all := RowPlacements(row, id, cubeIndex, level);
      |all| == FACE_SIZE * |row| &&
        all[FACE_SIZE * s + p] == (row[s].0.members[p], Location(row[s].1, p, id, cubeIndex, level))
  {
    var n := |row| - 1;
    var front := row[..n];
    var before := RowPlacements(front, id, cubeIndex, level);
    if n > 0 {
      RowPlacesEach(front, id, cubeIndex, level, if s < n then s else 0, p);
    } else {
      assert before == [];
    }
  }

  // ---- late arrivals ----

  /** No two members share a key. */
  ghost predicate DistinctBy<T>(num: T -> nat, s: seq<T>) { forall i, j :: 0 <= i < j < |s| ==> num(s[i]) != num(s[j]) }

  lemma {:induction false} KeepSorted<T>(num: T -> nat, s: seq<T>, p: T -> bool)
    requires SortedBy(num, s)
    ensures SortedBy(num, Keep(s, p))
  {
    if s != [] {
      KeepSorted(num, s[1..], p);
      KeepElements(s[1..], p);
      var t := Keep(s[1..], p);
      forall j | 0 <= j < |t| ensures num(s[0]) <= num(t[j]) { assert t[j] in s[1..]; }
    }
  }

  lemma {:induction false} AtMostOnce<T>(num: T -> nat, s: seq<T>, x: T)
    requires DistinctBy(num, s)
    ensures multiset(s)[x] <= 1
  {
    if s != [] {
      AtMostOnce(num, s[1..], x);
      assert s == [s[0]] + s[1..];
      if x == s[0] { assert x !in s[1..]; }
    }
  }

  lemma Twice<T>(s: seq<T>, i: nat, j: nat)
    requires i < j < |s| && s[i] == s[j]
    ensures multiset(s)[s[i]] >= 2
  {
    assert s == s[..i] + [s[i]] + s[i + 1..j] + [s[j]] + s[j + 1..];
  }

  lemma DistinctByMultiset<T>(num: T -> nat, a: seq<T>, b: seq<T>)
    requires DistinctBy(num, a) && multiset(b) <= multiset(a)
    ensures DistinctBy(num, b)
  {
    forall i, j | 0 <= i < j < |b| ensures num(b[i]) != num(b[j]) {
      var x, y := b[i], b[j];
      assert x in multiset(b) && y in multiset(b);
      assert x in a && y in a;
      AtMostOnce(num, a, x);
      if x == y {
        Twice(b, i, j);
        assert false;
      }
    }
  }

  lemma ColumnFacts<T>(key: T -> Option<Hash>, ms: seq<T>, slots: nat, s: nat)
    requires slots > 0
    ensures SortedBy(NumKey(key), Column(key, ms, slots, s))
    ensures multiset(Column(key, ms, slots, s)) == multiset(Keep(Keep(ms, Keyed(key)), InSlot(key, slots, s)))
  {
    var kept := Keep(ms, Keyed(key));
    SortBySorts(NumKey(key), kept);
    KeepSorted(NumKey(key), Ordered(key, ms), InSlot(key, slots, s));
    KeepMultiset(Ordered(key, ms), kept, InSlot(key, slots, s));
  }

  /** Every newcomer sorts after the first c members. */
  ghost predicate After<T>(num: T -> nat, x: seq<T>, z: seq<T>, c: nat)
    requires c <= |x|
  {
    forall e, k | e in z && 0 <= k < c :: num(x[k]) < num(e)
  }

  /** A sorted column keeps its first c members exactly when every newcomer sorts after all of them. */
  lemma SortedGrows<T>(num: T -> nat, x: seq<T>, y: seq<T>, z: seq<T>, c: nat)
    requires SortedBy(num, x) && SortedBy(num, y) && multiset(y) == multiset(x) + multiset(z)
    requires DistinctBy(num, y) && c <= |x| <= |y|
    ensures y[..c] == x[..c] <==> After(num, x, z, c)
  {
    if y[..c] == x[..c] {
      forall e, k | e in z && 0 <= k < c ensures num(x[k]) < num(e) { NewcomerAfter(num, x, y, z, c, e, k); }
    }
    if After(num, x, z, c) { PrefixStays(num, x, y, z, c); }
  }

  lemma PrefixStays<T>(num: T -> nat, x: seq<T>, y: seq<T>, z: seq<T>, c: nat)
    requires SortedBy(num, x) && SortedBy(num, y) && multiset(y) == multiset(x) + multiset(z)
    requires DistinctBy(num, y) && c <= |x| <= |y| && After(num, x, z, c)
    ensures y[..c] == x[..c]
  {
    hide SortBy, After, SortedBy, DistinctBy;
    var tail := x[c..] + z;
    var sorted := SortBy(num, tail);
    var built := x[..c] + sorted;
    SortBySorts(num, tail);
    PrefixSorts(num, x, z, c);
    assert multiset(built) == multiset(y) by { assert x == x[..c] + x[c..]; }
    KeysDistinct(num, y);
    SortedByUnique(num, y, built);
    assert built[..c] == x[..c];
  }

  /** In terms of the keys themselves. */
  lemma KeysDistinct<T>(num: T -> nat, s: seq<T>)
    requires DistinctBy(num, s)
    ensures Distinct(KeysOf(num, s))
  {
  }

  lemma PrefixSorts<T>(num: T -> nat, x: seq<T>, z: seq<T>, c: nat)
    requires SortedBy(num, x) && c <= |x| && After(num, x, z, c)
    ensures SortedBy(num, x[..c] + SortBy(num, x[c..] + z))
  {
    var tail := x[c..] + z;
    var rest := SortBy(num, tail);
    SortBySorts(num, tail);
    forall i, j | 0 <= i < c && 0 <= j < |rest| ensures num(x[i]) <= num(rest[j]) {
      var e := rest[j];
      assert e in multiset(rest);
      assert e in tail;
      if e !in z {
        var m :| c <= m < |x| && x[m] == e;
      }
    }
  }

  lemma NewcomerAfter<T>(num: T -> nat, x: seq<T>, y: seq<T>, z: seq<T>, c: nat, e: T, k: nat)
    requires SortedBy(num, y) && multiset(y) == multiset(x) + multiset(z) && DistinctBy(num, y)
    requires k < c <= |x| && c <= |y| && y[..c] == x[..c] && e in z
    ensures num(x[k]) < num(e)
  {
    assert e in multiset(z);
    assert e in multiset(y);
    var j :| 0 <= j < |y| && y[j] == e;
    AtMostOnce(num, y, e);
    assert multiset(x)[e] == 0;
    forall i | 0 <= i < c ensures y[i] == x[i] && y[i] != e {
      assert x[i] == x[..c][i] == y[..c][i] == y[i];
      assert x[i] in multiset(x);
    }
    assert num(y[k]) != num(y[j]);
  }

  ghost predicate CompleteKept<T>(key: T -> Option<Hash>, old_: seq<T>, late: seq<T>, slots: nat)
    requires slots > 0
  {
    CompleteRows(Columns(key, old_, slots)) <= CompleteRows(Columns(key, old_ + late, slots))
  }

  /** The late members that belong to slot s. */
  function LateIn<T>(key: T -> Option<Hash>, late: seq<T>, slots: nat, s: nat): seq<T>
    requires slots > 0
  {
    Keep(Keep(late, Keyed(key)), InSlot(key, slots, s))
  }

  /** Every late member sorts after all the members of its slot that already stand in a complete container. */
  ghost predicate SortsAfterComplete<T>(key: T -> Option<Hash>, old_: seq<T>, late: seq<T>, slots: nat)
    requires slots > 0
  {
    var cols := Columns(key, old_, slots);
    forall s :: 0 <= s < slots ==> After(NumKey(key), cols[s], LateIn(key, late, slots, s), MinLen(cols))
  }

  /** Late members leave every complete container as it was if and only if each sorts after the complete containers'
      members of its own slot. In particular, members that sort after all others in their slot change none. */
  lemma LateMembers<T>(key: T -> Option<Hash>, old_: seq<T>, late: seq<T>, slots: nat)
    requires slots > 0 && DistinctBy(NumKey(key), Keep(old_ + late, Keyed(key)))
    ensures CompleteKept(key, old_, late, slots) <==> SortsAfterComplete(key, old_, late, slots)
  {
    hide Columns, CompleteRows, LateIn, After, SamePrefix, DistinctBy;
    var a, b := Columns(key, old_, slots), Columns(key, old_ + late, slots);
    var c := MinLen(a);
    forall s | 0 <= s < slots
      ensures c <= |a[s]| <= |b[s]|
      ensures SamePrefix(a, b, s, c) <==> After(NumKey(key), a[s], LateIn(key, late, slots, s), c)
    {
      SlotGrows(key, old_, late, slots, s, c);
    }
    RowsKept(a, b);
  }

  ghost predicate SamePrefix<T>(a: seq<seq<T>>, b: seq<seq<T>>, s: nat, c: nat)
    requires s < |a| == |b| && c <= |a[s]| && c <= |b[s]|
  {
    a[s][..c] == b[s][..c]
  }

  ghost predicate SamePrefixes<T>(a: seq<seq<T>>, b: seq<seq<T>>, c: nat)
    requires |a| == |b| && forall s :: 0 <= s < |a| ==> c <= |a[s]| && c <= |b[s]|
  {
    forall s :: 0 <= s < |a| ==> SamePrefix(a, b, s, c)
  }

  lemma SlotGrows<T>(key: T -> Option<Hash>, old_: seq<T>, late: seq<T>, slots: nat, s: nat, c: nat)
    requires slots > 0 && s < slots && DistinctBy(NumKey(key), Keep(old_ + late, Keyed(key)))
    requires c <= |Columns(key, old_, slots)[s]|
    ensures var a, b := Columns(key, old_, slots), Columns(key, old_ + late, slots);
      |a[s]| <= |b[s]| && (SamePrefix(a, b, s, c) <==> After(NumKey(key), a[s], LateIn(key, late, slots, s), c))
  {
    var num, inSlot, keyed := NumKey(key), InSlot(key, slots, s), Keyed(key);
    var x, y, z := Column(key, old_, slots, s), Column(key, old_ + late, slots, s), LateIn(key, late, slots, s);
    ColumnFacts(key, old_, slots, s);
    ColumnFacts(key, old_ + late, slots, s);
    KeepAppend(old_, late, keyed);
    KeepAppend(Keep(old_, keyed), Keep(late, keyed), inSlot);
    var all := Keep(old_ + late, keyed);
    assert multiset(y) == multiset(x) + multiset(z);
    assert |multiset(y)| == |multiset(x)| + |multiset(z)|;
    forall e | e in multiset(y) ensures multiset(y)[e] <= multiset(all)[e] { KeepCount(all, inSlot, e); }
    DistinctByMultiset(num, all, y);
    SortedGrows(num, x, y, z, c);
  }

  lemma RowsSpelled<T>(a: seq<seq<T>>, b: seq<seq<T>>)
    requires |a| == |b| > 0 && forall s :: 0 <= s < |a| ==> |a[s]| <= |b[s]|
    ensures var c, ra, rb := MinLen(a), CompleteRows(a), CompleteRows(b);
      c <= MinLen(b) && |ra| == c && |rb| == MinLen(b) && forall k :: 0 <= k < c ==>
        ra[k] == RowAt(a, k) && rb[k] == RowAt(b, k) && RowFull(a, k) && RowFull(b, k)
  {
    var c := MinLen(a);
    assert c <= MinLen(b) by { var s :| 0 <= s < |b| && MinLen(b) == |b[s]|; }
    var ra, rb := CompleteRows(a), CompleteRows(b);
    forall k | 0 <= k < c ensures ra[k] == RowAt(a, k) && rb[k] == RowAt(b, k) && RowFull(a, k) && RowFull(b, k) {
      RowIsFull(a, k);
      RowIsFull(b, k);
    }
  }

  /** The complete rows are kept exactly when every column keeps that many first members. */
  lemma RowsKept<T>(a: seq<seq<T>>, b: seq<seq<T>>)
    requires |a| == |b| > 0 && forall s :: 0 <= s < |a| ==> |a[s]| <= |b[s]|
    ensures CompleteRows(a) <= CompleteRows(b) <==> SamePrefixes(a, b, MinLen(a))
  {
    RowsSpelled(a, b);
    hide CompleteRows, RowAt, MinLen;
    var c, ra, rb := MinLen(a), CompleteRows(a), CompleteRows(b);
    if ra <= rb {
      forall s | 0 <= s < |a| ensures SamePrefix(a, b, s, c) {
        forall k | 0 <= k < c ensures a[s][k] == b[s][k] {
          assert ra[k] == rb[k] && RowFull(a, k) && RowFull(b, k);
          assert ra[k][s].0 == rb[k][s].0;
        }
      }
    }
    if SamePrefixes(a, b, c) {
      forall k | 0 <= k < c ensures ra[k] == rb[k] {
        assert RowFull(a, k) && RowFull(b, k);
        forall s | 0 <= s < |a| ensures RowAt(a, k)[s] == RowAt(b, k)[s] {
          assert SamePrefix(a, b, s, c);
          assert a[s][..c][k] == b[s][..c][k];
        }
      }
      assert ra == rb[..c];
    }
  }

  ghost predicate RowFull<T>(cols: seq<seq<T>>, k: nat) {
    |RowAt(cols, k)| == |cols| && forall s :: 0 <= s < |cols| ==> k < |cols[s]| && RowAt(cols, k)[s] == (cols[s][k], s)
  }
}
