/** Adopted cubes on disk: rows kept in key order, written by adoption and joined back into a payload for serving. */
module CubeStore {
  import opened Ordering
  import opened JsMap
  import opened Hashing
  import opened PlacementCheck
  import opened CubeSync

  /** A stored block row under its key, the first sixteen digits of the block hash. */
  type Entry = (Short, Row)

  function EntryHash(e: Entry): Hash { e.1.hash }

  /** An iteration meets the rows in key order, each key once. */
  ghost predicate InKeyOrder(rows: seq<Entry>) { forall i, j :: 0 <= i < j < |rows| ==> rows[i].0 < rows[j].0 }

  function Put(rows: seq<Entry>, k: Short, r: Row): seq<Entry> {
    if rows == [] then [(k, r)]
    else if k < rows[0].0 then [(k, r)] + rows
    else if k == rows[0].0 then [(k, r)] + rows[1..]
    else [rows[0]] + Put(rows[1..], k, r)
  }

  function EntryOf(H: Hasher, r: Row): Entry { (H.short(r.hash), r) }

  function PutAll(H: Hasher, rows: seq<Entry>, more: seq<Row>): seq<Entry> {
    if more == [] then rows
    else
      var r := more[|more| - 1];
      Put(PutAll(H, rows, more[..|more| - 1]), H.short(r.hash), r)
  }

  /** Writing a key replaces its row and leaves the others. */
  ghost predicate Replaced(t: seq<Entry>, rows: seq<Entry>, k: Short, r: Row) {
    && (k, r) in t
    && (forall e | e in t :: e == (k, r) || (e in rows && e.0 != k))
    && (forall e | e in rows && e.0 != k :: e in t)
  }

  lemma {:induction false} PutReplaces(rows: seq<Entry>, k: Short, r: Row)
    requires InKeyOrder(rows)
    ensures Replaced(Put(rows, k, r), rows, k, r)
  {
    var t := Put(rows, k, r);
    if rows == [] {
      assert t == [(k, r)];
    } else if k < rows[0].0 {
      assert t == [(k, r)] + rows;
    } else if k == rows[0].0 {
      var rest := rows[1..];
      assert t == [(k, r)] + rest && rows == [rows[0]] + rest;
    } else {
      var rest := rows[1..];
      PutReplaces(rest, k, r);
      assert t == [rows[0]] + Put(rest, k, r) && rows == [rows[0]] + rest;
    }
  }

  lemma {:induction false} PutSorted(rows: seq<Entry>, k: Short, r: Row)
    requires InKeyOrder(rows)
    ensures InKeyOrder(Put(rows, k, r))
  {
    if rows != [] && k > rows[0].0 {
      var rest := Put(rows[1..], k, r);
      PutSorted(rows[1..], k, r);
      PutReplaces(rows[1..], k, r);
      forall j | 0 <= j < |rest| ensures rows[0].0 < rest[j].0 {
        assert rest[j] in rest;
        assert rest[j] == (k, r) || rest[j] in rows[1..];
      }
      assert Put(rows, k, r) == [rows[0]] + rest;
    }
  }

  /** An entry comes from a row of `more`, or was there before under a key `more` does not write. */
  ghost predicate ComesFrom(H: Hasher, e: Entry, rows: seq<Entry>, more: seq<Row>) {
    Written(H, e, more) || (e in rows && Untouched(H, e, more))
  }

  ghost predicate Written(H: Hasher, e: Entry, more: seq<Row>) {
    exists i :: 0 <= i < |more| && e == EntryOf(H, more[i])
  }

  ghost predicate Untouched(H: Hasher, e: Entry, more: seq<Row>) {
    forall i :: 0 <= i < |more| ==> H.short(more[i].hash) != e.0
  }

  /** No later row of `more` writes the same key. */
  ghost predicate LastOfKey(H: Hasher, more: seq<Row>, i: nat) requires i < |more| {
    forall j :: i < j < |more| ==> H.short(more[j].hash) != H.short(more[i].hash)
  }

  lemma {:induction false} PutAllSorted(H: Hasher, rows: seq<Entry>, more: seq<Row>)
    requires InKeyOrder(rows)
    ensures InKeyOrder(PutAll(H, rows, more))
  {
    if more != [] {
      var n := |more| - 1;
      PutAllSorted(H, rows, more[..n]);
      PutSorted(PutAll(H, rows, more[..n]), H.short(more[n].hash), more[n]);
    }
  }

  lemma {:induction false} PutAllSource(H: Hasher, rows: seq<Entry>, more: seq<Row>, e: Entry)
    requires InKeyOrder(rows) && e in PutAll(H, rows, more)
    ensures ComesFrom(H, e, rows, more)
  {
    if more != [] {
      var n := |more| - 1;
      PutAllSorted(H, rows, more[..n]);
      PutReplaces(PutAll(H, rows, more[..n]), H.short(more[n].hash), more[n]);
      if e == EntryOf(H, more[n]) {
        assert Written(H, e, more);
      } else {
        PutAllSource(H, rows, more[..n], e);
        StillComesFrom(H, e, rows, more);
      }
    }
  }

  lemma {:induction false} PutAllKeeps(H: Hasher, rows: seq<Entry>, more: seq<Row>, i: nat)
    requires InKeyOrder(rows) && i < |more| && LastOfKey(H, more, i)
    ensures EntryOf(H, more[i]) in PutAll(H, rows, more)
  {
    var n := |more| - 1;
    PutAllSorted(H, rows, more[..n]);
    PutReplaces(PutAll(H, rows, more[..n]), H.short(more[n].hash), more[n]);
    if i < n { PutAllKeeps(H, rows, more[..n], i); }
  }

  /** The row that survives under each key is the last one written there. */
  lemma PutAllFacts(H: Hasher, rows: seq<Entry>, more: seq<Row>)
    requires InKeyOrder(rows)
    ensures InKeyOrder(PutAll(H, rows, more))
    ensures forall e | e in PutAll(H, rows, more) :: ComesFrom(H, e, rows, more)
    ensures forall i | 0 <= i < |more| && LastOfKey(H, more, i) :: EntryOf(H, more[i]) in PutAll(H, rows, more)
  {
    hide PutAll, ComesFrom, LastOfKey, InKeyOrder;
    PutAllSorted(H, rows, more);
    forall e | e in PutAll(H, rows, more) ensures ComesFrom(H, e, rows, more) { PutAllSource(H, rows, more, e); }
    forall i | 0 <= i < |more| && LastOfKey(H, more, i) ensures EntryOf(H, more[i]) in PutAll(H, rows, more) {
      PutAllKeeps(H, rows, more, i);
    }
  }

  lemma StillComesFrom(H: Hasher, e: Entry, rows: seq<Entry>, more: seq<Row>)
    requires more != [] && ComesFrom(H, e, rows, more[..|more| - 1]) && e.0 != H.short(more[|more| - 1].hash)
    ensures ComesFrom(H, e, rows, more)
  {
    var front := more[..|more| - 1];
    if Written(H, e, front) {
      var i :| 0 <= i < |front| && e == EntryOf(H, front[i]);
      assert e == EntryOf(H, more[i]);
    } else {
      forall i | 0 <= i < |more| ensures H.short(more[i].hash) != e.0 { if i < |front| { assert more[i] == front[i]; } }
    }
  }

  // ---- serving: the join by cube id ----

  predicate Names(e: Entry, id: Short) { e.1.loc.Some? && e.1.loc.value.cubeId == id }

  predicate InFace(e: Entry, id: Short, face: nat) { Names(e, id) && e.1.loc.value.faceIndex == face }

  function Wire(r: Row): (b: WireBlock) { WireBlock(Some(r.hash), Some(r.tx), None, None, None) }

  /** The named rows of one face, in key order. */
  function Group(rows: seq<Entry>, id: Short, face: nat): seq<Entry> { Keep(rows, e => InFace(e, id, face)) }

  function WireAll(es: seq<Entry>): (r: seq<WireBlock>)
    ensures |r| == |es|
  {
    seq(|es|, i requires 0 <= i < |es| => Wire(es[i].1))
  }

  /** The face indices named, in order of first sight. */
  function Seen(rows: seq<Entry>, id: Short): (r: seq<nat>) {
    if rows == [] then []
    else
      var n := |rows| - 1;
      var before := Seen(rows[..n], id);
      if Names(rows[n], id) && rows[n].1.loc.value.faceIndex !in before
      then before + [rows[n].1.loc.value.faceIndex]
      else before
  }

  function FaceOf(g: seq<Entry>): WireFace { WireFace(WireAll(g), None, None, None) }

  /** What is served: three faces of nine, by face index; nothing when the members cannot be named. */
  function Rebuild(rows: seq<Entry>, id: Short): Option<Payload> {
    var ks := Sort(Seen(rows, id));
    if |ks| != 3 then None
    else
      var a, b, c := Group(rows, id, ks[0]), Group(rows, id, ks[1]), Group(rows, id, ks[2]);
      if |a| != FACE_SIZE || |b| != FACE_SIZE || |c| != FACE_SIZE then None
      else Some(Payload([FaceOf(a), FaceOf(b), FaceOf(c)], None))
  }

  lemma {:induction false} SeenFacts(rows: seq<Entry>, id: Short)
    ensures Distinct(Seen(rows, id))
    ensures forall f :: f in Seen(rows, id) <==> exists e :: e in rows && InFace(e, id, f)
  {
    if rows != [] {
      var n := |rows| - 1;
      SeenFacts(rows[..n], id);
      assert rows == rows[..n] + [rows[n]];
      forall f ensures f in Seen(rows, id) <==> exists e :: e in rows && InFace(e, id, f) {
        if f in Seen(rows[..n], id) {
          var e :| e in rows[..n] && InFace(e, id, f);
          assert e in rows;
        }
        if InFace(rows[n], id, f) { assert rows[n] in rows; }
        if e :| e in rows && InFace(e, id, f) { assert e in rows[..n] || e == rows[n]; }
      }
    }
  }

  lemma GroupStep(rows: seq<Entry>, i: nat, id: Short, face: nat)
    requires i < |rows|
    ensures Group(rows[..i + 1], id, face) == Group(rows[..i], id, face) +
      (if InFace(rows[i], id, face) then [rows[i]] else [])
  {
    assert rows[..i + 1] == rows[..i] + [rows[i]];
    KeepAppend(rows[..i], [rows[i]], e => InFace(e, id, face));
    var last := [rows[i]];
    KeepStep(last, e => InFace(e, id, face));
    assert last[1..] == [];
  }

  /** What the map of groups holds after a prefix of the rows. */
  ghost predicate Grouped(byFace: OrderedMap<nat, seq<WireBlock>>, rows: seq<Entry>, id: Short) {
    && byFace.Valid()
    && byFace.order == Seen(rows, id)
    && forall f :: (if f in byFace.m then byFace.m[f] else []) == WireAll(Group(rows, id, f))
  }

  /** One row into its group. */
  function Gather(byFace: OrderedMap<nat, seq<WireBlock>>, e: Entry, id: Short): OrderedMap<nat, seq<WireBlock>> {
    if Names(e, id) then
      var f := e.1.loc.value.faceIndex;
      byFace.Set(f, byFace.GetOr(f, []) + [Wire(e.1)])
    else byFace
  }

  lemma WireStep(rows: seq<Entry>, i: nat, id: Short, face: nat)
    requires i < |rows|
    ensures WireAll(Group(rows[..i + 1], id, face)) ==
      WireAll(Group(rows[..i], id, face)) + (if InFace(rows[i], id, face) then [Wire(rows[i].1)] else [])
  {
    GroupStep(rows, i, id, face);
    hide Group;
    var g := Group(rows[..i], id, face);
    assert WireAll(g + [rows[i]]) == WireAll(g) + [Wire(rows[i].1)];
    assert g + [] == g;
  }

  lemma OrderStep(byFace: OrderedMap<nat, seq<WireBlock>>, rows: seq<Entry>, i: nat, id: Short)
    requires i < |rows| && byFace.Valid() && byFace.order == Seen(rows[..i], id)
    ensures Gather(byFace, rows[i], id).Valid() && Gather(byFace, rows[i], id).order == Seen(rows[..i + 1], id)
  {
    assert rows[..i + 1][..i] == rows[..i];
    hide Distinct;
    assert byFace.Valid();
    var f := if Names(rows[i], id) then rows[i].1.loc.value.faceIndex else 0;
    assert f in byFace.m <==> f in byFace.order;
  }

  lemma GroupedStep(byFace: OrderedMap<nat, seq<WireBlock>>, rows: seq<Entry>, i: nat, id: Short)
    requires i < |rows| && Grouped(byFace, rows[..i], id)
    ensures Grouped(Gather(byFace, rows[i], id), rows[..i + 1], id)
  {
    OrderStep(byFace, rows, i, id);
    hide Seen, Group, WireAll, OrderedMap.Valid;
    var next := Gather(byFace, rows[i], id);
    forall f ensures (if f in next.m then next.m[f] else []) == WireAll(Group(rows[..i + 1], id, f)) {
      WireStep(rows, i, id, f);
      assert (if f in byFace.m then byFace.m[f] else []) == WireAll(Group(rows[..i], id, f));
    }
  }

  class CubeSyncManager {
    var rows: seq<Entry>
    var cubes: map<Short, Hash>
    var pool: seq<Hash>
    var adopted: nat

    constructor ()
      ensures rows == [] && cubes == map[] && pool == [] && adopted == 0
    {
      rows, cubes, pool, adopted := [], map[], [], 0;
    }

    method GroupRows(id: Short) returns (byFace: OrderedMap<nat, seq<WireBlock>>)
      ensures Grouped(byFace, rows, id)
    {
      byFace := Empty();
      var i := 0;
      while i < |rows|
        invariant 0 <= i <= |rows|
        invariant Grouped(byFace, rows[..i], id)
      {
        GroupedStep(byFace, rows, i, id);
        byFace := Gather(byFace, rows[i], id);
        i := i + 1;
      }
      assert rows[..i] == rows;
    }

    method BuildPayload(id: Short) returns (p: Option<Payload>)
      ensures p == Rebuild(rows, id)
    {
      hide Group, Seen, WireAll, Sort;
      var byFace := GroupRows(id);
      if |byFace.order| != 3 {
        SortSorts(byFace.order);
        return None;
      }
      var ks := Sort(byFace.order);
      SortElements(byFace.order);
      SortSorts(byFace.order);
      var faces: seq<WireFace> := [];
      var k := 0;
      while k < 3
        invariant 0 <= k <= 3 && |faces| == k
        invariant forall j :: 0 <= j < k ==>
          faces[j] == FaceOf(Group(rows, id, ks[j])) && |Group(rows, id, ks[j])| == FACE_SIZE
      {
        assert ks[k] in byFace.order;
        assert ks[k] in byFace.m;
        var blocks := byFace.m[ks[k]];
        if |blocks| != FACE_SIZE { return None; }
        faces := faces + [WireFace(blocks, None, None, None)];
        k := k + 1;
      }
      assert faces == [faces[0], faces[1], faces[2]];
      return Some(Payload(faces, None));
    }

    method PutRows(H: Hasher, more: seq<Row>)
      modifies this`rows
      ensures rows == PutAll(H, old(rows), more)
    {
      var i := 0;
      while i < |more|
        invariant 0 <= i <= |more|
        invariant rows == PutAll(H, old(rows), more[..i])
      {
        assert more[..i + 1][..i] == more[..i];
        rows := Put(rows, H.short(more[i].hash), more[i]);
        i := i + 1;
      }
      assert more[..i] == more;
    }

    /** A held cube changes nothing. Otherwise the cube row and its members' rows are written, and members still in the
        local pool leave it. */
    method Adopt(H: Hasher, v: Verdict, p: Payload) returns (done: bool)
      requires |p.faces| == CUBE_SLOTS &&
        forall j :: 0 <= j < |p.faces| ==> WellFormed(p.faces[j]) && Complete(p.faces[j])
      requires v == VerdictOn(H, p)
      modifies this
      ensures done == (v.id !in old(cubes))
      ensures !done ==> rows == old(rows) && cubes == old(cubes) && pool == old(pool) && adopted == old(adopted)
      ensures done ==>
        && rows == PutAll(H, old(rows), PlanRows(H, p, v.id, |old(cubes)|, CUBE_SLOTS))
        && cubes == old(cubes)[v.id := v.root] && adopted == old(adopted) + 1
        && pool == Without(old(pool), Within(RowHashes(PlanRows(H, p, v.id, |old(cubes)|, CUBE_SLOTS)), old(pool)))
      ensures done && Distinct(Roots(H, p.faces)) ==> forall h :: h in pool <==> h in old(pool) && !IsMember(p, h)
    {
      var plan := PlanAdoption(H, v, p, cubes.Keys, pool, |cubes|);
      if plan.Skip? { return false; }
      cubes := cubes[plan.id := plan.root];
      PutRows(H, plan.rows);
      WithoutElements(pool, plan.evict);
      if plan.evict != [] {
        pool := Without(pool, plan.evict);
      } else {
        KeepAll(pool, x => x !in plan.evict);
      }
      adopted := adopted + 1;
      return true;
    }
  }

  // ---- what was adopted can be served again ----

  function AllHashes(p: Payload): (r: seq<Hash>)
    requires |p.faces| == 3 && forall i :: 0 <= i < 3 ==> AllHashed(p.faces[i])
  {
    Keys(p.faces[0]) + Keys(p.faces[1]) + Keys(p.faces[2])
  }

  function Entries(H: Hasher, rows: seq<Row>): (r: seq<Entry>)
    ensures |r| == |rows|
  {
    seq(|rows|, i requires 0 <= i < |rows| => EntryOf(H, rows[i]))
  }

  /** The rows adoption plans for one face of an accepted payload. */
  function RowsOf(H: Hasher, p: Payload, i: nat, cubeSeq: nat): seq<Row>
    requires |p.faces| == 3 && i < 3 && forall j :: 0 <= j < 3 ==> WellFormed(p.faces[j]) && Complete(p.faces[j])
  {
    FaceRows(p.faces[i], FaceRank(H, p, i), VerdictOn(H, p).id, cubeSeq)
  }

  function AllRows(H: Hasher, p: Payload, cubeSeq: nat): seq<Row>
    requires |p.faces| == 3 && forall j :: 0 <= j < 3 ==> WellFormed(p.faces[j]) && Complete(p.faces[j])
  {
    PlanRows(H, p, VerdictOn(H, p).id, cubeSeq, 3)
  }

  lemma AllRowsSplit(H: Hasher, p: Payload, cubeSeq: nat)
    requires |p.faces| == 3 && forall j :: 0 <= j < 3 ==> WellFormed(p.faces[j]) && Complete(p.faces[j])
    ensures AllRows(H, p, cubeSeq) == RowsOf(H, p, 0, cubeSeq) + RowsOf(H, p, 1, cubeSeq) + RowsOf(H, p, 2, cubeSeq)
  {
    var id := VerdictOn(H, p).id;
    assert PlanRows(H, p, id, cubeSeq, 0) == [];
    assert PlanRows(H, p, id, cubeSeq, 1) == RowsOf(H, p, 0, cubeSeq);
    assert PlanRows(H, p, id, cubeSeq, 2) == RowsOf(H, p, 0, cubeSeq) + RowsOf(H, p, 1, cubeSeq);
  }

  /** A row carries a block's hash and transaction. */
  ghost predicate RowFrom(r: Row, f: WireFace) {
    exists i :: 0 <= i < |f.blocks| && f.blocks[i].hash == Some(r.hash) && f.blocks[i].tx == Some(r.tx)
  }

  lemma FaceRowsFacts(f: WireFace, face: nat, id: Short, cubeSeq: nat)
    requires AllHashed(f) && Complete(f)
    ensures multiset(RowHashes(FaceRows(f, face, id, cubeSeq))) == multiset(Keys(f))
    ensures forall r | r in FaceRows(f, face, id, cubeSeq) ::
      RowFrom(r, f) && r.loc.Some? && r.loc.value.faceIndex == face && r.loc.value.cubeId == id
  {
    var rows, s := FaceRows(f, face, id, cubeSeq), SortBy(HashOf, f.blocks);
    SortedComplete(f);
    SortBySorts(HashOf, f.blocks);
    assert RowHashes(rows) == KeysOf(HashOf, s);
    assert Keys(f) == KeysOf(HashOf, f.blocks);
    KeysMultiset(HashOf, s, f.blocks);
    forall r | r in rows
      ensures RowFrom(r, f) && r.loc.Some? && r.loc.value.faceIndex == face && r.loc.value.cubeId == id
    {
      var k :| 0 <= k < |rows| && rows[k] == r;
      assert s[k] in multiset(s);
      assert s[k] in f.blocks;
    }
  }

  /** No row from before names the cube, except under a key adoption writes anyway. */
  ghost predicate NoStray(H: Hasher, rows: seq<Entry>, p: Payload)
    requires |p.faces| == 3 && forall j :: 0 <= j < 3 ==> WellFormed(p.faces[j])
  {
    forall e | e in rows && Names(e, VerdictOn(H, p).id) :: exists h :: h in AllHashes(p) && H.short(h) == e.0
  }

  lemma RowHashesAll(H: Hasher, p: Payload, cubeSeq: nat)
    requires |p.faces| == 3 && forall j :: 0 <= j < 3 ==> WellFormed(p.faces[j]) && Complete(p.faces[j])
    ensures multiset(RowHashes(AllRows(H, p, cubeSeq))) == multiset(AllHashes(p))
  {
    AllRowsSplit(H, p, cubeSeq);
    var a, b, d := RowsOf(H, p, 0, cubeSeq), RowsOf(H, p, 1, cubeSeq), RowsOf(H, p, 2, cubeSeq);
    assert RowHashes(a + b + d) == RowHashes(a) + RowHashes(b) + RowHashes(d);
    forall i | 0 <= i < 3 ensures multiset(RowHashes(RowsOf(H, p, i, cubeSeq))) == multiset(Keys(p.faces[i])) {
      FaceRowsFacts(p.faces[i], FaceRank(H, p, i), VerdictOn(H, p).id, cubeSeq);
    }
  }

  lemma RanksAre(H: Hasher, p: Payload)
    requires |p.faces| == 3 && (forall j :: 0 <= j < 3 ==> WellFormed(p.faces[j])) && Distinct(Roots(H, p.faces))
    ensures |Sort(Roots(H, p.faces))| == 3
    ensures forall i :: 0 <= i < 3 ==>
      FaceRank(H, p, i) < 3 && Sort(Roots(H, p.faces))[FaceRank(H, p, i)] == Roots(H, p.faces)[i]
    ensures forall i, j :: 0 <= i < j < 3 ==> FaceRank(H, p, i) != FaceRank(H, p, j)
  {
    var roots := Roots(H, p.faces);
    SortSorts(roots);
    SortElements(roots);
    forall i | 0 <= i < 3 ensures FaceRank(H, p, i) < 3 && Sort(roots)[FaceRank(H, p, i)] == roots[i] {
      assert roots[i] in roots;
    }
    assert FaceRank(H, p, 0) != FaceRank(H, p, 1) && FaceRank(H, p, 0) != FaceRank(H, p, 2) &&
      FaceRank(H, p, 1) != FaceRank(H, p, 2);
  }

  /** After adoption, the rows naming the cube are planned rows. */
  lemma NamedRowsPlanned(H: Hasher, c: Checks, p: Payload, before: seq<Entry>, cubeSeq: nat, e: Entry)
    requires Acceptable(H, c, p, None) && InKeyOrder(before) && NoStray(H, before, p)
    requires e in PutAll(H, before, AllRows(H, p, cubeSeq)) && Names(e, VerdictOn(H, p).id)
    ensures Written(H, e, AllRows(H, p, cubeSeq))
  {
    var rows := AllRows(H, p, cubeSeq);
    PutAllFacts(H, before, rows);
    assert ComesFrom(H, e, before, rows);
    RowHashesAll(H, p, cubeSeq);
    if e in before {
      var h :| h in AllHashes(p) && H.short(h) == e.0;
      assert h in multiset(RowHashes(rows));
      assert h in RowHashes(rows);
      var i :| 0 <= i < |rows| && RowHashes(rows)[i] == h;
      assert H.short(rows[i].hash) == e.0;
    }
  }

  /** The served face built from a face's rows is that face again, whatever order the store gives them. */
  lemma ServedFace(H: Hasher, c: Checks, f: WireFace, rows: seq<Row>, g: seq<Entry>)
    requires SoundFace(H, c, f) && WellFormed(f) && Passes(c.shapeOk, f) && Passes(c.sigOk, f)
    requires multiset(RowHashes(rows)) == multiset(Keys(f)) && forall r | r in rows :: RowFrom(r, f)
    requires multiset(g) == multiset(Entries(H, rows))
    ensures var q := FaceOf(g);
      SoundFace(H, c, q) && WellFormed(q) && Root(H, q) == Root(H, f) && Passes(c.shapeOk, q) && Passes(c.sigOk, q)
  {
    var q := FaceOf(g);
    forall k | 0 <= k < |g| ensures RowFrom(g[k].1, f) {
      assert g[k] in multiset(g);
      assert g[k] in Entries(H, rows);
      var i :| 0 <= i < |rows| && g[k] == EntryOf(H, rows[i]);
    }
    ServedKeys(H, f, rows, g);
    forall k | 0 <= k < |g| ensures Sound(H, c, q.blocks[k])
        && (c.shapeOk.Some? ==> c.shapeOk.value(q.blocks[k].tx.value)) &&
          (c.sigOk.Some? ==> c.sigOk.value(q.blocks[k].tx.value))
        {
      assert RowFrom(g[k].1, f);
      var i :| 0 <= i < |f.blocks| && f.blocks[i].hash == Some(g[k].1.hash) && f.blocks[i].tx == Some(g[k].1.tx);
      assert Sound(H, c, f.blocks[i]);
    }
  }

  lemma ServedKeys(H: Hasher, f: WireFace, rows: seq<Row>, g: seq<Entry>)
    requires WellFormed(f) && multiset(RowHashes(rows)) == multiset(Keys(f)) &&
      multiset(g) == multiset(Entries(H, rows))
    ensures var q := FaceOf(g); WellFormed(q) && Root(H, q) == Root(H, f)
  {
    var q := FaceOf(g);
    assert Keys(q) == KeysOf(EntryHash, g);
    assert KeysOf(EntryHash, Entries(H, rows)) == RowHashes(rows);
    KeysMultiset(EntryHash, g, Entries(H, rows));
    assert multiset(Keys(q)) == multiset(Keys(f));
    DistinctFromMultiset(Keys(f), Keys(q));
    SameMultisetSameLength(Keys(q), Keys(f));
    SortOfPermutation(Keys(q), Keys(f));
  }

  // ---- all 27 hashes distinct: every row survives ----

  lemma AllSurvive(H: Hasher, c: Checks, p: Payload, before: seq<Entry>, cubeSeq: nat)
    requires H.CollisionFree() && Acceptable(H, c, p, None) && InKeyOrder(before) && Distinct(AllHashes(p))
    ensures forall r | r in AllRows(H, p, cubeSeq) :: EntryOf(H, r) in PutAll(H, before, AllRows(H, p, cubeSeq))
    ensures Distinct(RowHashes(AllRows(H, p, cubeSeq)))
  {
    var rows := AllRows(H, p, cubeSeq);
    RowHashesAll(H, p, cubeSeq);
    DistinctFromMultiset(AllHashes(p), RowHashes(rows));
    PutAllFacts(H, before, rows);
    forall r | r in rows ensures EntryOf(H, r) in PutAll(H, before, rows) {
      var i :| 0 <= i < |rows| && rows[i] == r;
      forall j | i < j < |rows| ensures H.short(rows[j].hash) != H.short(rows[i].hash) {
        assert RowHashes(rows)[i] != RowHashes(rows)[j];
      }
      assert LastOfKey(H, rows, i);
    }
  }

  lemma RowInFace(H: Hasher, p: Payload, cubeSeq: nat, r: Row, i: nat)
    requires |p.faces| == 3 && i < 3 && forall j :: 0 <= j < 3 ==> WellFormed(p.faces[j]) && Complete(p.faces[j])
    requires Distinct(Roots(H, p.faces))
    ensures r in AllRows(H, p, cubeSeq) && r.loc.Some? && r.loc.value.faceIndex == FaceRank(H, p, i) <==>
      r in RowsOf(H, p, i, cubeSeq)
  {
    AllRowsSplit(H, p, cubeSeq);
    RanksAre(H, p);
    forall k | 0 <= k < 3
      ensures forall x | x in RowsOf(H, p, k, cubeSeq) :: x.loc.Some? && x.loc.value.faceIndex == FaceRank(H, p, k)
    {
      FaceRowsFacts(p.faces[k], FaceRank(H, p, k), VerdictOn(H, p).id, cubeSeq);
    }
  }

  lemma DistinctEntries(H: Hasher, rows: seq<Row>)
    requires Distinct(RowHashes(rows))
    ensures Distinct(Entries(H, rows))
  {
    forall i, j | 0 <= i < j < |rows| ensures Entries(H, rows)[i] != Entries(H, rows)[j] {
      assert RowHashes(rows)[i] != RowHashes(rows)[j];
    }
  }

  /** The group the store joins for a rank is that face's rows. */
  lemma GroupIsFace(H: Hasher, c: Checks, p: Payload, before: seq<Entry>, cubeSeq: nat, i: nat)
    requires H.CollisionFree() && Acceptable(H, c, p, None) && InKeyOrder(before) && NoStray(H, before, p)
    requires Distinct(AllHashes(p)) && i < 3
    ensures var t := PutAll(H, before, AllRows(H, p, cubeSeq));
      multiset(Group(t, VerdictOn(H, p).id, FaceRank(H, p, i))) == multiset(Entries(H, RowsOf(H, p, i, cubeSeq)))
  {
    var id, face := VerdictOn(H, p).id, FaceRank(H, p, i);
    var all, mine := AllRows(H, p, cubeSeq), RowsOf(H, p, i, cubeSeq);
    var t := PutAll(H, before, all);
    var g, es := Group(t, id, face), Entries(H, mine);
    AllSurvive(H, c, p, before, cubeSeq);
    PutAllFacts(H, before, all);
    FaceRowsFacts(p.faces[i], face, id, cubeSeq);
    KeepElements(t, e => InFace(e, id, face));
    assert Distinct(t);
    KeepDistinct(t, e => InFace(e, id, face));
    forall e | e in g ensures e in es { GroupedIsMine(H, c, p, before, cubeSeq, i, e); }
    forall e | e in es ensures e in g {
      var m :| 0 <= m < |mine| && es[m] == e;
      assert mine[m] in mine;
      RowInFace(H, p, cubeSeq, mine[m], i);
    }
    assert Elements(g) == Elements(es);
    DistinctFromMultiset(Keys(p.faces[i]), RowHashes(mine));
    DistinctEntries(H, mine);
    DistinctMultiset(g);
    DistinctMultiset(es);
  }

  lemma GroupedIsMine(H: Hasher, c: Checks, p: Payload, before: seq<Entry>, cubeSeq: nat, i: nat, e: Entry)
    requires Acceptable(H, c, p, None) && InKeyOrder(before) && NoStray(H, before, p) && i < 3
    requires e in PutAll(H, before, AllRows(H, p, cubeSeq)) && InFace(e, VerdictOn(H, p).id, FaceRank(H, p, i))
    ensures e in Entries(H, RowsOf(H, p, i, cubeSeq))
  {
    var all, mine := AllRows(H, p, cubeSeq), RowsOf(H, p, i, cubeSeq);
    NamedRowsPlanned(H, c, p, before, cubeSeq, e);
    var k :| 0 <= k < |all| && e == EntryOf(H, all[k]);
    assert all[k] in all;
    RowInFace(H, p, cubeSeq, all[k], i);
    var m :| 0 <= m < |mine| && mine[m] == all[k];
    assert Entries(H, mine)[m] == e;
  }

  lemma SeenBelow(H: Hasher, c: Checks, p: Payload, before: seq<Entry>, cubeSeq: nat, f: nat)
    requires Acceptable(H, c, p, None) && InKeyOrder(before) && NoStray(H, before, p)
    requires f in Seen(PutAll(H, before, AllRows(H, p, cubeSeq)), VerdictOn(H, p).id)
    ensures f < 3
  {
    hide FaceRows, PutAll, CubeIdOf, FaceRank;
    var id, all := VerdictOn(H, p).id, AllRows(H, p, cubeSeq);
    var t := PutAll(H, before, all);
    SeenFacts(t, id);
    var e :| e in t && InFace(e, id, f);
    NamedRowsPlanned(H, c, p, before, cubeSeq, e);
    var k :| 0 <= k < |all| && e == EntryOf(H, all[k]);
    PlannedBelow(H, c, p, cubeSeq, all[k]);
  }

  lemma PlannedBelow(H: Hasher, c: Checks, p: Payload, cubeSeq: nat, r: Row)
    requires Acceptable(H, c, p, None) && r in AllRows(H, p, cubeSeq)
    ensures r.loc.Some? && r.loc.value.faceIndex < 3
  {
    RanksAre(H, p);
    AllRowsSplit(H, p, cubeSeq);
    var id := VerdictOn(H, p).id;
    FaceRowsFacts(p.faces[0], FaceRank(H, p, 0), id, cubeSeq);
    FaceRowsFacts(p.faces[1], FaceRank(H, p, 1), id, cubeSeq);
    FaceRowsFacts(p.faces[2], FaceRank(H, p, 2), id, cubeSeq);
  }

  lemma SeenHas(H: Hasher, c: Checks, p: Payload, before: seq<Entry>, cubeSeq: nat, i: nat)
    requires H.CollisionFree() && Acceptable(H, c, p, None) && InKeyOrder(before) && Distinct(AllHashes(p)) && i < 3
    ensures FaceRank(H, p, i) in Seen(PutAll(H, before, AllRows(H, p, cubeSeq)), VerdictOn(H, p).id)
  {
    var id, all := VerdictOn(H, p).id, AllRows(H, p, cubeSeq);
    var t := PutAll(H, before, all);
    SeenFacts(t, id);
    AllSurvive(H, c, p, before, cubeSeq);
    AllRowsSplit(H, p, cubeSeq);
    FaceRowsFacts(p.faces[i], FaceRank(H, p, i), id, cubeSeq);
    var r := RowsOf(H, p, i, cubeSeq)[0];
    assert r in RowsOf(H, p, i, cubeSeq);
    assert r in all;
    hide PutAll, AllRows, RowsOf, FaceRank, Acceptable, AllHashes, Seen;
    assert EntryOf(H, r) in t && InFace(EntryOf(H, r), id, FaceRank(H, p, i));
  }

  lemma SeenIsThree(H: Hasher, c: Checks, p: Payload, before: seq<Entry>, cubeSeq: nat)
    requires H.CollisionFree() && Acceptable(H, c, p, None) && InKeyOrder(before) && NoStray(H, before, p) &&
      Distinct(AllHashes(p))
    ensures Sort(Seen(PutAll(H, before, AllRows(H, p, cubeSeq)), VerdictOn(H, p).id)) == [0, 1, 2]
  {
    var seen := Seen(PutAll(H, before, AllRows(H, p, cubeSeq)), VerdictOn(H, p).id);
    SeenFacts(PutAll(H, before, AllRows(H, p, cubeSeq)), VerdictOn(H, p).id);
    forall f | f in seen ensures f < 3 { SeenBelow(H, c, p, before, cubeSeq, f); }
    RanksAre(H, p);
    SeenHas(H, c, p, before, cubeSeq, 0);
    SeenHas(H, c, p, before, cubeSeq, 1);
    SeenHas(H, c, p, before, cubeSeq, 2);
    hide PutAll, AllRows, FaceRank, Seen, Acceptable, AllHashes;
    ThreeSeen(seen, FaceRank(H, p, 0), FaceRank(H, p, 1), FaceRank(H, p, 2));
  }

  lemma ThreeSeen(seen: seq<nat>, a: nat, b: nat, d: nat)
    requires Distinct(seen) && (forall f | f in seen :: f < 3) && a in seen && b in seen && d in seen && a != b &&
      a != d && b != d
    ensures Sort(seen) == [0, 1, 2]
  {
    assert Elements(seen) == Elements([0, 1, 2]);
    SortOfSameSet(seen, [0, 1, 2]);
    SortOfSorted([0, 1, 2]);
  }

  lemma FaceAtRank(H: Hasher, p: Payload, k: nat) returns (i: nat)
    requires |p.faces| == 3 && (forall j :: 0 <= j < 3 ==> WellFormed(p.faces[j])) && Distinct(Roots(H, p.faces)) &&
      k < 3
    ensures i < 3 && FaceRank(H, p, i) == k && |Sort(Roots(H, p.faces))| == 3 &&
      Sort(Roots(H, p.faces))[k] == Roots(H, p.faces)[i]
  {
    RanksAre(H, p);
    i := if FaceRank(H, p, 0) == k then 0 else if FaceRank(H, p, 1) == k then 1 else 2;
  }

  /** The payload served after adoption: face k is the face of rank k. */
  ghost predicate Serves(H: Hasher, c: Checks, p: Payload, k: nat, q: WireFace)
    requires |p.faces| == 3 && (forall j :: 0 <= j < 3 ==> WellFormed(p.faces[j]))
  {
    SortSorts(Roots(H, p.faces));
    && k < 3 && SoundFace(H, c, q) && WellFormed(q) && Root(H, q) == Sort(Roots(H, p.faces))[k]
    && Passes(c.shapeOk, q) && Passes(c.sigOk, q) && Claimless(q)
  }

  ghost predicate Claimless(q: WireFace) {
    q.faceIndex.None? && q.index.None? &&
    forall i :: 0 <= i < |q.blocks| ==>
      q.blocks[i].position.None? && q.blocks[i].locPosition.None? && q.blocks[i].locFace.None?
  }

  lemma GroupServes(H: Hasher, c: Checks, p: Payload, before: seq<Entry>, cubeSeq: nat, k: nat)
    requires H.CollisionFree() && Acceptable(H, c, p, None) && InKeyOrder(before) && NoStray(H, before, p) &&
      Distinct(AllHashes(p)) && k < 3
    ensures Serves(H, c, p, k, FaceOf(Group(PutAll(H, before, AllRows(H, p, cubeSeq)), VerdictOn(H, p).id, k)))
  {
    var id := VerdictOn(H, p).id;
    var i := FaceAtRank(H, p, k);
    GroupIsFace(H, c, p, before, cubeSeq, i);
    FaceRowsFacts(p.faces[i], k, id, cubeSeq);
    assert SoundFace(H, c, p.faces[i]) && Passes(c.shapeOk, p.faces[i]) && Passes(c.sigOk, p.faces[i]);
    var g := Group(PutAll(H, before, AllRows(H, p, cubeSeq)), id, k);
    ServedFace(H, c, p.faces[i], RowsOf(H, p, i, cubeSeq), g);
  }

  lemma ServedIsAcceptable(H: Hasher, c: Checks, p: Payload, q: Payload)
    requires Acceptable(H, c, p, None) && |q.faces| == 3 && q.merkleRoot.None?
    requires forall k :: 0 <= k < 3 ==> Serves(H, c, p, k, q.faces[k])
    ensures Acceptable(H, c, q, Some(VerdictOn(H, p).id))
    ensures VerdictOn(H, q).id == VerdictOn(H, p).id && VerdictOn(H, q).root == VerdictOn(H, p).root
  {
    ServedRoots(H, c, p, q);
    ClaimlessIsLegal(H, q);
    hide Sort, Legal, SoundFace, Passes, Sound;
    assert forall k :: 0 <= k < 3 ==> SoundFace(H, c, q.faces[k]);
  }

  lemma ServedRoots(H: Hasher, c: Checks, p: Payload, q: Payload)
    requires Acceptable(H, c, p, None) && |q.faces| == 3 && forall k :: 0 <= k < 3 ==> WellFormed(q.faces[k])
    requires forall k :: 0 <= k < 3 ==> Serves(H, c, p, k, q.faces[k])
    ensures Distinct(Roots(H, q.faces))
    ensures CubeIdOf(H, Roots(H, q.faces)) == CubeIdOf(H, Roots(H, p.faces))
    ensures CubeRootOf(H, Roots(H, q.faces)) == CubeRootOf(H, Roots(H, p.faces))
  {
    var roots := Roots(H, p.faces);
    SortSorts(roots);
    SortDistinct(roots);
    assert Roots(H, q.faces) == Sort(roots);
    SortOfSorted(Sort(roots));
  }

  lemma ClaimlessIsLegal(H: Hasher, q: Payload)
    requires |q.faces| == 3 && forall k :: 0 <= k < 3 ==> WellFormed(q.faces[k]) && Claimless(q.faces[k])
    requires Distinct(Roots(H, q.faces))
    ensures Legal(H, q.faces)
  {
    forall k | 0 <= k < 3 ensures PositionsAgree(q.faces[k]) {}
    forall k, rank | 0 <= k < 3 ensures IndexAgrees(q.faces[k], rank) {}
  }

  // ---- a hash repeated across faces: the cube cannot be served ----

  lemma {:induction false} FullElementsDistinct<T>(s: seq<T>)
    ensures |Elements(s)| <= |s|
    ensures |Elements(s)| == |s| ==> Distinct(s)
  {
    if s != [] {
      var n := |s| - 1;
      FullElementsDistinct(s[..n]);
      assert s == s[..n] + [s[n]];
      assert Elements(s) == Elements(s[..n]) + {s[n]};
      if s[n] in Elements(s[..n]) {
        assert Elements(s) == Elements(s[..n]);
      } else {
        assert |Elements(s)| == |Elements(s[..n])| + 1;
        assert s[n] !in s[..n];
      }
    }
  }

  /** What the join returns when it returns anything: three distinct groups of nine. */
  lemma NamedKeyIsHash(H: Hasher, c: Checks, p: Payload, before: seq<Entry>, cubeSeq: nat, e: Entry)
    requires Acceptable(H, c, p, None) && InKeyOrder(before) && NoStray(H, before, p)
    requires e in PutAll(H, before, AllRows(H, p, cubeSeq)) && Names(e, VerdictOn(H, p).id)
    ensures e.0 == H.short(e.1.hash) && e.1.hash in AllHashes(p)
  {
    NamedRowsPlanned(H, c, p, before, cubeSeq, e);
    var all := AllRows(H, p, cubeSeq);
    var k :| 0 <= k < |all| && e == EntryOf(H, all[k]);
    RowHashesAll(H, p, cubeSeq);
    assert RowHashes(all)[k] in multiset(RowHashes(all));
    assert RowHashes(all)[k] in multiset(AllHashes(p));
  }

  lemma GroupsDistinct(t: seq<Entry>, id: Short, a: nat, b: nat, d: nat)
    requires InKeyOrder(t) && a != b && a != d && b != d
    ensures Distinct(Group(t, id, a) + Group(t, id, b) + Group(t, id, d))
    ensures forall e | e in Group(t, id, a) + Group(t, id, b) + Group(t, id, d) :: e in t && Names(e, id)
  {
    assert Distinct(t);
    forall f: nat ensures Distinct(Group(t, id, f)) && forall e | e in Group(t, id, f) :: e in t && InFace(e, id, f) {
      KeepDistinct(t, e => InFace(e, id, f));
      KeepElements(t, e => InFace(e, id, f));
    }
    var x, y, z := Group(t, id, a), Group(t, id, b), Group(t, id, d);
    forall i, j | 0 <= i < |x| && 0 <= j < |y| ensures x[i] != y[j] {
      assert InFace(x[i], id, a) && InFace(y[j], id, b);
    }
    forall i, j | 0 <= i < |x| && 0 <= j < |z| ensures x[i] != z[j] {
      assert InFace(x[i], id, a) && InFace(z[j], id, d);
    }
    forall i, j | 0 <= i < |y| && 0 <= j < |z| ensures y[i] != z[j] {
      assert InFace(y[i], id, b) && InFace(z[j], id, d);
    }
  }

  lemma ServedOnlyIfDistinct(H: Hasher, c: Checks, p: Payload, before: seq<Entry>, cubeSeq: nat)
    requires Acceptable(H, c, p, None) && InKeyOrder(before) && NoStray(H, before, p)
    requires Rebuild(PutAll(H, before, AllRows(H, p, cubeSeq)), VerdictOn(H, p).id).Some?
    ensures Distinct(AllHashes(p))
  {
    var id, t := VerdictOn(H, p).id, PutAll(H, before, AllRows(H, p, cubeSeq));
    var ks := Sort(Seen(t, id));
    SeenFacts(t, id);
    SortDistinct(Seen(t, id));
    PutAllFacts(H, before, AllRows(H, p, cubeSeq));
    GroupsDistinct(t, id, ks[0], ks[1], ks[2]);
    var all := Group(t, id, ks[0]) + Group(t, id, ks[1]) + Group(t, id, ks[2]);
    NamedFill(H, c, p, before, cubeSeq, all);
  }

  lemma NamedFill(H: Hasher, c: Checks, p: Payload, before: seq<Entry>, cubeSeq: nat, all: seq<Entry>)
    requires Acceptable(H, c, p, None) && InKeyOrder(before) && NoStray(H, before, p)
    requires Distinct(all) && |all| == 27
    requires forall e | e in all :: e in PutAll(H, before, AllRows(H, p, cubeSeq)) && Names(e, VerdictOn(H, p).id)
    ensures Distinct(AllHashes(p))
  {
    assert |AllHashes(p)| == 27;
    hide NoStray, AllRows, PutAll, AllHashes, CubeIdOf;
    var t := PutAll(H, before, AllRows(H, p, cubeSeq));
    PutAllSorted(H, before, AllRows(H, p, cubeSeq));
    var hs := KeysOf(EntryHash, all);
    forall i | 0 <= i < 27 ensures hs[i] in AllHashes(p) && all[i].0 == H.short(hs[i]) {
      NamedKeyIsHash(H, c, p, before, cubeSeq, all[i]);
    }
    forall i, j | 0 <= i < j < 27 ensures hs[i] != hs[j] {
      if all[i].0 == all[j].0 { KeyUnique(t, all[i], all[j]); }
    }
    DistinctMultiset(hs);
    SubsetSize(Elements(hs), Elements(AllHashes(p)));
    FullElementsDistinct(AllHashes(p));
  }

  lemma KeyUnique(t: seq<Entry>, e: Entry, f: Entry)
    requires InKeyOrder(t) && e in t && f in t && e.0 == f.0
    ensures e == f
  {
    var i :| 0 <= i < |t| && t[i] == e;
    var j :| 0 <= j < |t| && t[j] == f;
    assert !(i < j) && !(j < i);
  }

  lemma DistinctIsServed(H: Hasher, c: Checks, p: Payload, before: seq<Entry>, cubeSeq: nat)
    requires H.CollisionFree() && Acceptable(H, c, p, None) && InKeyOrder(before) && NoStray(H, before, p) &&
      Distinct(AllHashes(p))
    ensures var q := Rebuild(PutAll(H, before, AllRows(H, p, cubeSeq)), VerdictOn(H, p).id);
      && q.Some? && Acceptable(H, c, q.value, Some(VerdictOn(H, p).id))
      && VerdictOn(H, q.value).id == VerdictOn(H, p).id && VerdictOn(H, q.value).root == VerdictOn(H, p).root
  {
    var id, t := VerdictOn(H, p).id, PutAll(H, before, AllRows(H, p, cubeSeq));
    SeenIsThree(H, c, p, before, cubeSeq);
    GroupServes(H, c, p, before, cubeSeq, 0);
    GroupServes(H, c, p, before, cubeSeq, 1);
    GroupServes(H, c, p, before, cubeSeq, 2);
    hide PutAll, AllRows, Serves, Rebuild, CubeIdOf, CubeRootOf, Legal, SoundFace, Passes, NoStray, Group, Seen, FaceOf;
    ThreeServed(H, c, p, t, id);
  }

  lemma ThreeServed(H: Hasher, c: Checks, p: Payload, t: seq<Entry>, id: Short)
    requires Acceptable(H, c, p, None) && Sort(Seen(t, id)) == [0, 1, 2]
    requires Serves(H, c, p, 0, FaceOf(Group(t, id, 0))) && Serves(H, c, p, 1, FaceOf(Group(t, id, 1))) &&
      Serves(H, c, p, 2, FaceOf(Group(t, id, 2)))
    ensures var q := Rebuild(t, id);
      && q.Some? && Acceptable(H, c, q.value, Some(VerdictOn(H, p).id))
      && VerdictOn(H, q.value).id == VerdictOn(H, p).id && VerdictOn(H, q.value).root == VerdictOn(H, p).root
  {
    var q := Payload([FaceOf(Group(t, id, 0)), FaceOf(Group(t, id, 1)), FaceOf(Group(t, id, 2))], None);
    assert Rebuild(t, id) == Some(q);
    hide Rebuild, Serves, CubeIdOf, CubeRootOf, Legal, SoundFace, Passes, Group, Seen;
    ServedIsAcceptable(H, c, p, q);
  }

  /** The round trip. Adopt an accepted cube into a store where no foreign row names it. The store can serve the cube
      again if and only if its 27 hashes are distinct (verification does not ask that across faces), and what it serves
      is accepted under the same id and root, by the same checks. */
  lemma AdoptedCubeIsServed(H: Hasher, c: Checks, p: Payload, before: seq<Entry>, cubeSeq: nat)
    requires H.CollisionFree() && Acceptable(H, c, p, None) && InKeyOrder(before) && NoStray(H, before, p)
    ensures var q := Rebuild(PutAll(H, before, AllRows(H, p, cubeSeq)), VerdictOn(H, p).id);
      && (q.Some? <==> Distinct(AllHashes(p)))
      && (q.Some? ==>
            && Acceptable(H, c, q.value, Some(VerdictOn(H, p).id))
            && VerdictOn(H, q.value).id == VerdictOn(H, p).id && VerdictOn(H, q.value).root == VerdictOn(H, p).root)
  {
    hide PutAll, Rebuild, NoStray, AllRows, CubeIdOf, CubeRootOf;
    if Distinct(AllHashes(p)) { DistinctIsServed(H, c, p, before, cubeSeq); }
    if Rebuild(PutAll(H, before, AllRows(H, p, cubeSeq)), VerdictOn(H, p).id).Some? {
      ServedOnlyIfDistinct(H, c, p, before, cubeSeq);
    }
  }

  /** Serving reads nothing but the rows that name the cube: whatever else is written later, the answer stands. */
  lemma OnlyNamedRowsMatter(t: seq<Entry>, u: seq<Entry>, id: Short)
    requires Keep(t, e => Names(e, id)) == Keep(u, e => Names(e, id))
    ensures Rebuild(t, id) == Rebuild(u, id)
  {
    SeenOfNamed(t, id);
    SeenOfNamed(u, id);
    forall f: nat ensures Group(t, id, f) == Group(u, id, f) {
      KeepKeep(t, e => InFace(e, id, f), e => Names(e, id));
      KeepKeep(u, e => InFace(e, id, f), e => Names(e, id));
    }
  }

  lemma {:induction false} SeenOfNamed(t: seq<Entry>, id: Short)
    ensures Seen(t, id) == Seen(Keep(t, e => Names(e, id)), id)
  {
    if t != [] {
      var n := |t| - 1;
      var last, k := [t[n]], Keep(t[..n], e => Names(e, id));
      SeenOfNamed(t[..n], id);
      assert t == t[..n] + last;
      KeepAppend(t[..n], last, e => Names(e, id));
      KeepStep(last, e => Names(e, id));
      assert last[1..] == [];
      if Names(t[n], id) {
        assert (k + last)[..|k|] == k;
      } else {
        assert k + [] == k;
      }
    }
  }
}
