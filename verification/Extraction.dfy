/** Coordinates: where a block sits in the ledger, and the leaves of a cube of cubes. */
module Extraction {
  import opened Ordering
  import opened JsMap

  datatype Coord = Coord(x: int, y: int, z: int) {
    function Plus(d: Coord, scale: int): Coord { Coord(x + d.x * scale, y + d.y * scale, z + d.z * scale) }
  }

  // ---- geometry ----

  /** Row-major 3 by 3, centred; a position outside the grid falls back to the centre. */
  function PositionToLocal(position: int): (int, int) {
    if position < 0 || position > 8 then (0, 0) else (position % 3 - 1, 1 - position / 3)
  }

  function BlockCoords(face: int, position: int): Coord {
    var (x, y) := PositionToLocal(position);
    Coord(x, y, face - 1)
  }

  /** Level-1 cubes by sequence number: three to a row, three rows to a layer, layers without end. */
  function CubeCoords(n: nat): Coord {
    var pos := n % 9;
    Coord(pos % 3 * 3, -(pos / 3) * 3, n / 9 * 3)
  }

  function AbsoluteCoords(n: nat, face: nat, position: int): Coord {
    CubeCoords(n).Plus(BlockCoords(face, position), 1)
  }

  /** Which cube, face and position stands at a coordinate. */
  function Locate(c: Coord): (nat, nat, nat)
    requires c.x >= -1 && c.y <= 1 && c.z >= -1
  {
    var a, b, d := c.x + 1, 1 - c.y, c.z + 1;
    (9 * (d / 3) + 3 * (b / 3) + a / 3, d % 3, 3 * (b % 3) + a % 3)
  }

  /** Coordinates determine the place: no two blocks of the ledger share one, however many cubes there are. */
  lemma AbsoluteIsExact(n: nat, face: nat, position: nat)
    requires face < 3 && position < 9
    ensures var c := AbsoluteCoords(n, face, position);
      c.x >= -1 && c.y <= 1 && c.z >= -1 && Locate(c) == (n, face, position)
  {
    var pos, layer := n % 9, n / 9;
    assert n == 9 * layer + pos;
    DigitsAreExact(layer, pos / 3, pos % 3, position / 3, position % 3, face);
  }

  lemma DigitsAreExact(layer: nat, row: nat, col: nat, prow: nat, pcol: nat, face: nat)
    requires row < 3 && col < 3 && prow < 3 && pcol < 3 && face < 3
    ensures var n, position := 9 * layer + (3 * row + col), 3 * prow + pcol;
      var c := AbsoluteCoords(n, face, position);
      c.x >= -1 && c.y <= 1 && c.z >= -1 && Locate(c) == (n, face, position)
  {
    hide Locate, AbsoluteCoords;
    DigitsSpelled(layer, row, col, prow, pcol, face);
    ThreeDigits(layer, row, col, prow, pcol, face);
  }

  lemma DigitsSpelled(layer: nat, row: nat, col: nat, prow: nat, pcol: nat, face: nat)
    requires row < 3 && col < 3 && prow < 3 && pcol < 3 && face < 3
    ensures AbsoluteCoords(9 * layer + (3 * row + col), face, 3 * prow + pcol)
      == Coord(3 * col + pcol - 1, 1 - 3 * row - prow, 3 * layer + face - 1)
  {
    DivUnique(9 * layer + (3 * row + col), 9, layer, 3 * row + col);
    DivUnique(3 * row + col, 3, row, col);
    DivUnique(3 * prow + pcol, 3, prow, pcol);
  }

  lemma ThreeDigits(layer: nat, row: nat, col: nat, prow: nat, pcol: nat, face: nat)
    requires row < 3 && col < 3 && prow < 3 && pcol < 3 && face < 3
    ensures Locate(Coord(3 * col + pcol - 1, 1 - 3 * row - prow, 3 * layer + face - 1)) ==
      (9 * layer + 3 * row + col, face, 3 * prow + pcol)
  {
    DivUnique(3 * col + pcol, 3, col, pcol);
    DivUnique(3 * row + prow, 3, row, prow);
    DivUnique(3 * layer + face, 3, layer, face);
  }

  // ---- cubes of cubes ----

  /** A face of a cube: blocks by position at level 1, child cubes by position above. */
  datatype CubeFace = CubeFace(index: int, hash: nat, blocks: Option<set<nat>>, cubes: Option<map<nat, Cube>>)
  datatype Cube = Cube(level: nat, faces: seq<CubeFace>)

  function IndexKey(f: CubeFace): nat { if f.index < 0 then 0 else f.index }
  function HashKey(f: CubeFace): nat { f.hash }

  predicate CleanIndices(faces: seq<CubeFace>) {
    |faces| == 3 && {faces[0].index, faces[1].index, faces[2].index} == {0, 1, 2}
  }

  /** Trusted indices when they are a permutation of 0, 1, 2; otherwise the hash order. */
  function FacesInOrder(cube: Cube): (r: Option<seq<CubeFace>>)
    ensures r.Some? <==> |cube.faces| == 3
    ensures r.Some? ==> |r.value| == 3 && multiset(r.value) == multiset(cube.faces)
    ensures r.Some? && CleanIndices(cube.faces) ==> forall i :: 0 <= i < 3 ==> r.value[i].index == i
    ensures r.Some? && !CleanIndices(cube.faces) ==> SortedBy(HashKey, r.value)
  {
    if |cube.faces| != 3 then None
    else if CleanIndices(cube.faces) then (CleanOrder(cube.faces); Some(SortBy(IndexKey, cube.faces)))
    else (SortBySorts(HashKey, cube.faces); Some(SortBy(HashKey, cube.faces)))
  }

  /** Sorting three faces by clean indices puts each at its own index. */
  lemma CleanOrder(faces: seq<CubeFace>)
    requires CleanIndices(faces)
    ensures var s := SortBy(IndexKey, faces);
      |s| == 3 && multiset(s) == multiset(faces) && forall i :: 0 <= i < 3 ==> s[i].index == i
  {
    hide SortBy;
    var s := SortBy(IndexKey, faces);
    SortBySorts(IndexKey, faces);
    SortByKeys(IndexKey, faces);
    CleanKeys(KeysOf(IndexKey, faces));
    forall i | 0 <= i < 3 ensures s[i].index == i {
      assert KeysOf(IndexKey, s)[i] == i;
      assert s[i] in multiset(s);
      assert s[i] in faces;
    }
  }

  lemma CleanKeys(ks: seq<nat>)
    requires |ks| == 3 && {ks[0], ks[1], ks[2]} == {0, 1, 2}
    ensures Sort(ks) == [0, 1, 2]
  {
    hide Sort;
    ThreeKeys(ks[0], ks[1], ks[2]);
    assert ks == [ks[0], ks[1], ks[2]];
    SortOfPermutation(ks, [0, 1, 2]);
    SortOfSorted([0, 1, 2]);
  }

  lemma ThreeKeys(a: nat, b: nat, c: nat)
    requires {a, b, c} == {0, 1, 2}
    ensures multiset{a, b, c} == multiset{0, 1, 2}
  {
    assert 0 in {a, b, c} && 1 in {a, b, c} && 2 in {a, b, c};
    assert a in {0, 1, 2} && b in {0, 1, 2} && c in {0, 1, 2};
  }

  /** No unit is missing, all the way down. */
  ghost predicate Whole(cube: Cube, level: nat)
    decreases level
  {
    |cube.faces| == 3 && forall f | f in cube.faces :: WholeFace(f, level)
  }

  ghost predicate WholeFace(f: CubeFace, level: nat)
    decreases level, 1
  {
    (if level <= 1 then f.blocks.Some? else f.cubes.Some?) && forall p :: 0 <= p < 9 ==> WholeUnit(f, p, level)
  }

  ghost predicate WholeUnit(f: CubeFace, p: nat, level: nat)
    decreases level, 0
  {
    if level <= 1 then f.blocks.Some? && p in f.blocks.value
    else f.cubes.Some? && p in f.cubes.value && Whole(f.cubes.value[p], level - 1)
  }

  /** The slot of unit u among a cube's 27, in units of a cube's width. */
  function Slot(u: nat): Coord { CubeCoords(u) }

  /** The leaves of unit u: itself at level 1, else those of the child cube in its slot, on a grid a third as wide. */
  function UnitLeaves(level: nat, origin: Coord, scale: int, u: nat): seq<Coord>
    decreases level, 0, 0
  {
    if level <= 1 then [origin.Plus(BlockCoords(u / 9, u % 9), 1)]
    else Leaves(level - 1, origin.Plus(Slot(u), scale), scale / 3, 27)
  }

  /** The leaves of the first n units of a cube, whatever its content. */
  function Leaves(level: nat, origin: Coord, scale: int, n: nat): (r: seq<Coord>)
    decreases level, 1, n
  {
    if n == 0 then [] else Leaves(level, origin, scale, n - 1) + UnitLeaves(level, origin, scale, n - 1)
  }

  /** One unit after another, faces in order and positions in order. */
  method ExtractInto(cube: Cube, level: nat, origin: Coord, scale: int, out: seq<Coord>)
      returns (ok: bool, r: seq<Coord>)
    requires level >= 1
    ensures ok <==> Whole(cube, level)
    ensures ok ==> r == out + Leaves(level, origin, scale, 27)
    decreases level, 2
  {
    var faces := FacesInOrder(cube);
    if faces.None? { return false, out; }
    SameFaces(cube.faces, faces.value);
    r := out;
    var i := 0;
    while i < 3
      invariant 0 <= i <= 3
      invariant forall k :: 0 <= k < i ==> WholeFace(faces.value[k], level)
      invariant r == out + Leaves(level, origin, scale, 9 * i)
    {
      ok, r := ExtractFace(faces.value[i], i, level, origin, scale, out, r);
      if !ok {
        assert !WholeFace(faces.value[i], level) && faces.value[i] in cube.faces;
        return;
      }
      i := i + 1;
    }
    ok := true;
    forall f | f in cube.faces ensures WholeFace(f, level) {
      assert f in faces.value;
      var k :| 0 <= k < 3 && faces.value[k] == f;
    }
  }

  lemma SameFaces(a: seq<CubeFace>, b: seq<CubeFace>)
    requires multiset(a) == multiset(b)
    ensures forall f :: f in a <==> f in b
  {
    forall f ensures f in a <==> f in b { assert f in multiset(a) <==> f in multiset(b); }
  }

  method ExtractFace(face: CubeFace, i: nat, level: nat, origin: Coord, scale: int, ghost before: seq<Coord>,
        out: seq<Coord>)
      returns (ok: bool, r: seq<Coord>)
    requires level >= 1 && out == before + Leaves(level, origin, scale, 9 * i)
    ensures ok <==> WholeFace(face, level)
    ensures ok ==> r == before + Leaves(level, origin, scale, 9 * i + 9)
    decreases level, 1
  {
    r := out;
    if (if level == 1 then face.blocks.None? else face.cubes.None?) { return false, r; }
    var p := 0;
    while p < 9
      invariant 0 <= p <= 9
      invariant forall k :: 0 <= k < p ==> WholeUnit(face, k, level)
      invariant r == before + Leaves(level, origin, scale, 9 * i + p)
    {
      ok, r := ExtractUnit(face, i, p, level, origin, scale, r);
      if !ok { return; }
      p := p + 1;
    }
    ok := true;
  }

  method ExtractUnit(face: CubeFace, i: nat, p: nat, level: nat, origin: Coord, scale: int, out: seq<Coord>)
      returns (ok: bool, r: seq<Coord>)
    requires level >= 1 && p < 9 && if level == 1 then face.blocks.Some? else face.cubes.Some?
    ensures ok <==> WholeUnit(face, p, level)
    ensures ok ==> r == out + UnitLeaves(level, origin, scale, 9 * i + p)
    decreases level, 0
  {
    var u := 9 * i + p;
    DivUnique(u, 9, i, p);
    if level == 1 {
      return p in face.blocks.value, out + [origin.Plus(BlockCoords(i, p), 1)];
    }
    if p !in face.cubes.value { return false, out; }
    ok, r := ExtractInto(face.cubes.value[p], level - 1, origin.Plus(Slot(u), scale), scale / 3, out);
  }

  function Pow3(n: nat): (r: nat)
    ensures r > 0
  {
    if n == 0 then 1 else 3 * Pow3(n - 1)
  }

  function Pow27(n: nat): (r: nat) { if n == 0 then 1 else 27 * Pow27(n - 1) }

  /** A missing level counts as level 1; the grid is spaced three times wider with each level up. */
  method ExtractCube(cube: Cube) returns (r: Option<seq<Coord>>)
    ensures r.Some? <==> Whole(cube, LevelOf(cube))
    ensures r.Some? ==> r.value == AllLeaves(LevelOf(cube))
    ensures r.Some? ==> if cube.level == 0 then r.value == AllLeaves(1) else r.value == AllLeaves(cube.level)
  {
    if |cube.faces| != 3 { return None; }
    var level := LevelOf(cube);
    var ok, out := ExtractInto(cube, level, Coord(0, 0, 0), Pow3(level - 1), []);
    assert [] + Leaves(level, Coord(0, 0, 0), Pow3(level - 1), 27) == AllLeaves(level);
    return if ok then Some(out) else None;
  }

  function LevelOf(cube: Cube): (r: nat)
    ensures r >= 1
  {
    if cube.level == 0 then 1 else cube.level
  }

  function AllLeaves(level: nat): seq<Coord>
    requires level >= 1
  {
    Leaves(level, Coord(0, 0, 0), Pow3(level - 1), 27)
  }

  // ---- leaves never collide ----

  /** Column, row and layer of unit u in the 3 by 3 by 3 grid. */
  function Col(u: nat): (r: nat) ensures r < 3 { u % 9 % 3 }
  function Row(u: nat): (r: nat) ensures r < 3 { u % 9 / 3 }
  function Layer(u: nat): nat { u / 9 }

  lemma UnitIsDigits(u: nat, v: nat)
    requires Col(u) == Col(v) && Row(u) == Row(v) && Layer(u) == Layer(v)
    ensures u == v
  {
    assert u == 9 * Layer(u) + (3 * Row(u) + Col(u));
    assert v == 9 * Layer(v) + (3 * Row(v) + Col(v));
  }

  /** The corner of unit u when units are w wide. */
  function Corner(origin: Coord, w: int, u: nat): Coord {
    Coord(origin.x + w * Col(u), origin.y - w * Row(u), origin.z + w * Layer(u))
  }

  lemma SlotIsCorner(origin: Coord, s: int, u: nat)
    ensures origin.Plus(Slot(u), s) == Corner(origin, 3 * s, u)
  {
    assert (Col(u) * 3) * s == (3 * s) * Col(u);
    assert (0 - Row(u) * 3) * s == -((3 * s) * Row(u));
    assert (Layer(u) * 3) * s == (3 * s) * Layer(u);
  }

  /** A box that reaches one step behind its corner and stays r ahead of it. */
  ghost predicate Near(c: Coord, corner: Coord, r: int) {
    corner.x - 1 <= c.x <= corner.x + r && corner.y - r <= c.y <= corner.y + 1 && corner.z - 1 <= c.z <= corner.z + r
  }

  /** How far a level-n cube reaches. */
  function Reach(level: nat): int { 3 * Pow3(level) - 8 }

  /** Boxes in different slots are apart, as long as they reach less than a slot ahead. */
  lemma SlotsApart(origin: Coord, w: nat, r: int, u: nat, v: nat, c: Coord, d: Coord)
    requires u != v && r + 1 < w && Near(c, Corner(origin, w, u), r) && Near(d, Corner(origin, w, v), r)
    ensures c != d
  {
    if Col(u) < Col(v) { MulLess(w, Col(u), Col(v)); }
    if Col(v) < Col(u) { MulLess(w, Col(v), Col(u)); }
    if Row(u) < Row(v) { MulLess(w, Row(u), Row(v)); }
    if Row(v) < Row(u) { MulLess(w, Row(v), Row(u)); }
    if Layer(u) < Layer(v) { MulLess(w, Layer(u), Layer(v)); }
    if Layer(v) < Layer(u) { MulLess(w, Layer(v), Layer(u)); }
    if Col(u) == Col(v) && Row(u) == Row(v) && Layer(u) == Layer(v) { UnitIsDigits(u, v); }
  }

  /** All slots together reach three slots ahead. */
  lemma SlotsWithin(origin: Coord, w: nat, r: int, u: nat, c: Coord)
    requires w > 0 && u < 27 && Near(c, Corner(origin, w, u), r)
    ensures Near(c, origin, 2 * w + r)
  {
    MulAtMost(w, Col(u), 2);
    MulAtMost(w, Row(u), 2);
    MulAtMost(w, Layer(u), 2);
  }

  /** Unit u of a level-n cube lies in its own slot. */
  ghost predicate InUnit(c: Coord, origin: Coord, level: nat, u: nat)
    requires level >= 1
  {
    if level == 1 then c == origin.Plus(BlockCoords(u / 9, u % 9), 1)
    else Near(c, Corner(origin, Pow3(level), u), Reach(level - 1))
  }

  lemma {:induction false} UnitDistinct(level: nat, origin: Coord, u: nat)
    requires level >= 1 && u < 27
    ensures var s := UnitLeaves(level, origin, Pow3(level - 1), u);
      |s| == Pow27(level - 1) && Distinct(s) &&
        forall c | c in s :: InUnit(c, origin, level, u) && Near(c, origin, Reach(level))
    decreases level, 0, 0
  {
    if level > 1 {
      var w := Pow3(level);
      var corner := Corner(origin, w, u);
      SlotIsCorner(origin, Pow3(level - 1), u);
      assert Pow3(level - 1) / 3 == Pow3(level - 2);
      LeavesDistinct(level - 1, corner, 27);
      var s := UnitLeaves(level, origin, Pow3(level - 1), u);
      assert s == AllOf(level - 1, corner);
      forall c | c in s ensures InUnit(c, origin, level, u) && Near(c, origin, Reach(level)) {
        assert Near(c, corner, Reach(level - 1));
        SlotsWithin(origin, w, Reach(level - 1), u, c);
      }
    }
  }

  ghost function AllOf(level: nat, origin: Coord): seq<Coord>
    requires level >= 1
  {
    Leaves(level, origin, Pow3(level - 1), 27)
  }

  ghost predicate InSomeUnit(c: Coord, origin: Coord, level: nat, n: nat)
    requires level >= 1
  {
    exists u :: 0 <= u < n && InUnit(c, origin, level, u)
  }

  /** The first n units hold n * 27^(level-1) leaves, no two at one coordinate. */
  lemma {:induction false} LeavesDistinct(level: nat, origin: Coord, n: nat)
    requires level >= 1 && n <= 27
    ensures var s := Leaves(level, origin, Pow3(level - 1), n);
      && |s| == n * Pow27(level - 1) && Distinct(s)
      && (forall c | c in s :: Near(c, origin, Reach(level)))
      && (forall c | c in s :: InSomeUnit(c, origin, level, n))
    decreases level, 1, n
  {
    if n > 0 {
      LeavesDistinct(level, origin, n - 1);
      UnitDistinct(level, origin, n - 1);
      hide UnitLeaves, Near, InUnit, Pow27;
      var a, b := Leaves(level, origin, Pow3(level - 1), n - 1), UnitLeaves(level, origin, Pow3(level - 1), n - 1);
      forall c, d | c in a && d in b ensures c != d {
        assert InSomeUnit(c, origin, level, n - 1);
        var u :| 0 <= u < n - 1 && InUnit(c, origin, level, u);
        UnitsApart(level, origin, u, n - 1, c, d);
      }
      forall c | c in a + b ensures InSomeUnit(c, origin, level, n) {
        if c in a {
          assert InSomeUnit(c, origin, level, n - 1);
        } else {
          assert InUnit(c, origin, level, n - 1);
        }
      }
      DistinctAppend(a, b);
      TimesPlusOne(n - 1, Pow27(level - 1));
    }
  }

  lemma TimesPlusOne(n: nat, w: nat)
    ensures (n + 1) * w == n * w + w
  {
  }

  lemma DistinctAppend<T>(a: seq<T>, b: seq<T>)
    requires Distinct(a) && Distinct(b) && forall c, d | c in a && d in b :: c != d
    ensures Distinct(a + b)
  {
    var s := a + b;
    forall i, j | 0 <= i < j < |s| ensures s[i] != s[j] {
      if i < |a| <= j { assert s[i] in a && s[j] in b; }
    }
  }

  lemma UnitsApart(level: nat, origin: Coord, u: nat, v: nat, c: Coord, d: Coord)
    requires level >= 1 && u != v && InUnit(c, origin, level, u) && InUnit(d, origin, level, v) && u < 27 && v < 27
    ensures c != d
  {
    if level == 1 {
      if Col(u) == Col(v) && Row(u) == Row(v) && Layer(u) == Layer(v) { UnitIsDigits(u, v); }
    } else {
      SlotsApart(origin, Pow3(level), Reach(level - 1), u, v, c, d);
    }
  }

  /** A complete level-n cube extracts to 27^n leaves at pairwise different coordinates around the origin. Which ones
      depends on the level alone: neither the content of the cube nor the order its faces were held in moves a leaf. */
  lemma ExtractionIsInjective(level: nat)
    requires level >= 1
    ensures |AllLeaves(level)| == Pow27(level) && Distinct(AllLeaves(level))
    ensures forall c | c in AllLeaves(level) :: Near(c, Coord(0, 0, 0), Reach(level))
  {
    LeavesDistinct(level, Coord(0, 0, 0), 27);
  }

  lemma {:induction false} PlainLeaves(level: nat, origin: Coord, scale: int, n: nat, u: nat)
    requires level == 1 && origin == Coord(0, 0, 0) && u < n
    ensures |Leaves(level, origin, scale, n)| == n && Leaves(level, origin, scale, n)[u] == BlockCoords(u / 9, u % 9)
  {
    hide BlockCoords;
    var c := BlockCoords((n - 1) / 9, (n - 1) % 9);
    assert UnitLeaves(level, origin, scale, n - 1) == [c] by { assert origin.Plus(c, 1) == c; }
    hide UnitLeaves;
    if n > 1 { PlainLeaves(level, origin, scale, n - 1, if u < n - 1 then u else 0); }
  }

  /** A plain cube's leaves are its 27 blocks about the origin, face by face and position by position. */
  lemma PlainCubeLeaves(level: nat, u: nat)
    requires level == 1 && u < 27
    ensures |AllLeaves(level)| == 27 && AllLeaves(level)[u] == BlockCoords(u / 9, u % 9)
  {
    hide Leaves;
    PlainLeaves(level, Coord(0, 0, 0), Pow3(level - 1), 27, u);
  }
}
