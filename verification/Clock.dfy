/** The averaged consensus clock comes out the same on every node. */
module Clock {
  import opened Ordering
  import opened JsMap
  import opened Workflow

  /** One transaction, its validators, and the one time each of them reports. */
  datatype Panel = Panel(tx: Tx, id: TxId, members: seq<Node>, timeOf: Node -> Time)

  ghost predicate SameSet(p: Panel, leaders: seq<Node>) {
    Distinct(leaders) && Elements(leaders) == Elements(p.members)
  }

  function PanelStamps(p: Panel): (r: seq<Stamp>)
    ensures |r| == |p.members|
  {
    seq(|p.members|, i requires 0 <= i < |p.members| => Stamp(p.members[i], p.timeOf(p.members[i])))
  }

  /** The clock of the whole panel. */
  function PanelClock(c: Config, p: Panel): int
    requires p.members != []
  {
    SumNanos(c, PanelStamps(p)) / |p.members|
  }

  /** Distinct members, each with its own time. */
  ghost predicate Fair(p: Panel, stamps: seq<Stamp>) {
    Distinct(NodesOf(stamps)) &&
      forall i :: 0 <= i < |stamps| ==> stamps[i].node in p.members && stamps[i].time == p.timeOf(stamps[i].node)
  }

  ghost predicate FairEntry(p: Panel, e: Entry) {
    Fair(p, e.stamps) && (e.leaders.Some? && e.leaders.value != [] ==> SameSet(p, e.leaders.value))
  }

  ghost predicate FairPool(p: Panel, pool: Pool) {
    forall leader :: Pooled(pool, leader, p.id) ==> FairEntry(p, pool[leader][p.id])
  }

  ghost predicate IsPooled(p: Panel, pool: Pool) { exists leader :: Pooled(pool, leader, p.id) }

  /** The panel's set is the one recorded, from the moment the transaction is pooled. */
  ghost predicate Recorded(p: Panel, s: State) {
    (p.id in s.leaders ==> SameSet(p, s.leaders[p.id])) && (IsPooled(p, s.pool) ==> p.id in s.leaders)
  }

  /** Every attestation counted was the panel's, and all of it. */
  ghost predicate Unanimous(c: Config, p: Panel, e: Event)
    requires p.members != []
  {
    e.ToProcessing? && e.id == p.id ==> e.clock == PanelClock(c, p) && e.hash == c.validated(p.tx, PanelClock(c, p))
  }

  ghost predicate ClockInv(c: Config, p: Panel, s: State)
    requires p.members != []
  {
    TxsKnown(c, s) && FairPool(p, s.pool) && Recorded(p, s) && forall i :: 0 <= i < |s.log| ==>
      Unanimous(c, p, s.log[i])
  }

  /** What a node is told about this transaction: one leader set, and reports from its members, each with its one
      time. */
  ghost predicate Told(c: Config, p: Panel, e: Step) {
    match e
    case Submit(_, tx, admitted, _, leaders) => admitted && c.rawId(tx) == p.id ==> SameSet(p, leaders) && leaders != []
    case Ingest(_, tx, admitted, _, leaders) => admitted && c.rawId(tx) == p.id ==> SameSet(p, leaders) && leaders != []
    case Recovery(_, id, leaders) => id == p.id && leaders != [] ==> SameSet(p, leaders)
    case Report(id, _, _, node, time, _) => id == p.id ==> node in p.members && time == p.timeOf(node)
    case _ => true
  }

  ghost predicate Panelled(r: Run, p: Panel) {
    && r.Valid() && r.c.Faithful()
    && r.c.rawId(p.tx) == p.id && p.members != [] && Distinct(p.members) && |p.members| <= r.c.required
    && FairPool(p, r.states[0].pool) && Recorded(p, r.states[0])
    && forall t :: 0 <= t < |r.steps| ==> Told(r.c, p, r.steps[t])
  }

  // ---- a full panel decides the clock ----

  lemma {:induction false} SumRemoveOne(c: Config, s: seq<Stamp>, i: nat)
    requires i < |s|
    ensures SumNanos(c, s) == SumNanos(c, s[..i] + s[i + 1..]) + c.nanos(s[i].time)
  {
    var n := |s| - 1;
    if i < n {
      SumRemoveOne(c, s[..n], i);
      var t := s[..i] + s[i + 1..];
      assert t[..|t| - 1] == s[..n][..i] + s[..n][i + 1..];
    } else {
      assert s[..i] + s[i + 1..] == s[..n];
    }
  }

  /** The sum does not depend on the order reports arrived in. */
  lemma {:induction false} SumOfPermutation(c: Config, a: seq<Stamp>, b: seq<Stamp>)
    requires multiset(a) == multiset(b)
    ensures SumNanos(c, a) == SumNanos(c, b) && |a| == |b|
    decreases |a|
  {
    assert |a| == |multiset(a)| && |b| == |multiset(b)|;
    if a != [] {
      assert a[0] in multiset(b);
      var i :| 0 <= i < |b| && b[i] == a[0];
      RemoveOne(a, 0);
      RemoveOne(b, i);
      SumRemoveOne(c, a, 0);
      SumRemoveOne(c, b, i);
      SumOfPermutation(c, a[..0] + a[1..], b[..i] + b[i + 1..]);
    }
  }

  lemma FullPanel(c: Config, p: Panel, stamps: seq<Stamp>)
    requires Fair(p, stamps) && Distinct(p.members) && Count(stamps) >= |p.members|
    ensures multiset(stamps) == multiset(PanelStamps(p))
  {
    var nodes, full := NodesOf(stamps), PanelStamps(p);
    DistinctMultiset(nodes);
    DistinctMultiset(p.members);
    forall x | x in nodes ensures x in p.members {
      var i :| 0 <= i < |nodes| && nodes[i] == x;
      assert stamps[i].node == x;
    }
    SubsetSize(Elements(nodes), Elements(p.members));
    forall x | x in full ensures x in stamps {
      var i :| 0 <= i < |full| && full[i] == x;
      assert p.members[i] in Elements(nodes);
      var j :| 0 <= j < |nodes| && nodes[j] == p.members[i];
      assert stamps[j] == x;
    }
    forall x | x in stamps ensures x in full {
      var j :| 0 <= j < |stamps| && stamps[j] == x;
      assert x.node in p.members;
      var i :| 0 <= i < |p.members| && p.members[i] == x.node;
      assert full[i] == x;
    }
    forall i, j | 0 <= i < j < |stamps| ensures stamps[i] != stamps[j] { assert nodes[i] != nodes[j]; }
    forall i, j | 0 <= i < j < |full| ensures full[i] != full[j] { assert p.members[i] != p.members[j]; }
    assert Elements(stamps) == Elements(full);
    DistinctMultiset(stamps);
    DistinctMultiset(full);
  }

  lemma PanelAverage(c: Config, p: Panel, stamps: seq<Stamp>, leaders: seq<Node>, now: int)
    requires Fair(p, stamps) && Distinct(p.members) && p.members != [] && |p.members| <= c.required
    requires SameSet(p, leaders) && Count(stamps) >= NeedFor(c, Some(leaders))
    ensures Average(c, stamps, now) == PanelClock(c, p)
  {
    DistinctMultiset(p.members);
    DistinctMultiset(leaders);
    assert |leaders| == |p.members|;
    FullPanel(c, p, stamps);
    SumOfPermutation(c, stamps, PanelStamps(p));
  }

  // ---- every step keeps it ----

  lemma PutFair(p: Panel, pool: Pool, leader: Node, id: TxId, e: Entry)
    requires FairPool(p, pool) && (id == p.id ==> FairEntry(p, e))
    ensures FairPool(p, PutRaw(pool, leader, id, e))
  {
  }

  lemma DropFair(p: Panel, pool: Pool, leader: Node, id: TxId)
    requires FairPool(p, pool)
    ensures FairPool(p, DropRaw(pool, leader, id))
    ensures IsPooled(p, DropRaw(pool, leader, id)) ==> IsPooled(p, pool)
  {
    if IsPooled(p, DropRaw(pool, leader, id)) {
      var l :| Pooled(DropRaw(pool, leader, id), l, p.id);
      assert Pooled(pool, l, p.id);
    }
  }

  lemma PutPooled(p: Panel, pool: Pool, leader: Node, id: TxId, e: Entry)
    ensures IsPooled(p, PutRaw(pool, leader, id, e)) ==> IsPooled(p, pool) || id == p.id
  {
    var q := PutRaw(pool, leader, id, e);
    if IsPooled(p, q) && id != p.id {
      var l :| Pooled(q, l, p.id);
      assert Pooled(pool, l, p.id);
    }
  }

  lemma RecordFair(c: Config, p: Panel, s: State, id: TxId, leaders: seq<Node>)
    requires p.members != [] && TxsKnown(c, s) && FairPool(p, s.pool) &&
      (id == p.id && leaders != [] ==> SameSet(p, leaders))
    requires p.id in s.leaders ==> SameSet(p, s.leaders[p.id])
    requires IsPooled(p, s.pool) ==> p.id in s.leaders || (id == p.id && leaders != [])
    ensures var t := RecordLeaders(s, id, leaders);
      TxsKnown(c, t) && FairPool(p, t.pool) && Recorded(p, t) && t.log == s.log
  {
    RecordKnown(c, s, id, leaders);
    if leaders != [] && RawOf(s, id).Some? {
      var e := RawOf(s, id).value.(leaders := Some(leaders));
      assert Pooled(s.pool, s.owner[id], id);
      PutFair(p, s.pool, s.owner[id], id, e);
      PutPooled(p, s.pool, s.owner[id], id, e);
    }
  }

  lemma AcceptFair(c: Config, p: Panel, s: State, leader: Node, tx: Tx, room: bool, leaders: seq<Node>)
    requires p.members != [] && ClockInv(c, p, s) && (c.rawId(tx) == p.id ==> SameSet(p, leaders) && leaders != [])
    ensures ClockInv(c, p, Accept(s, leader, c.rawId(tx), tx, room, leaders))
  {
    var id := c.rawId(tx);
    AddKnown(c, s, leader, tx, room);
    var t := AddRaw(s, leader, id, tx, room);
    AddFair(p, s, leader, id, tx, room);
    hide AddRaw, Known;
    RecordFair(c, p, t.(owner := t.owner[id := leader]), id, leaders);
  }

  lemma AddFair(p: Panel, s: State, leader: Node, id: TxId, tx: Tx, room: bool)
    requires FairPool(p, s.pool)
    ensures var t := AddRaw(s, leader, id, tx, room);
      FairPool(p, t.pool) && (IsPooled(p, t.pool) ==> IsPooled(p, s.pool) || id == p.id) && t.leaders == s.leaders &&
        t.log == s.log
  {
    var pool := if leader in s.pool then s.pool else s.pool[leader := map[]];
    assert FairPool(p, pool);
    assert IsPooled(p, pool) ==> IsPooled(p, s.pool) by {
      if IsPooled(p, pool) {
        var l :| Pooled(pool, l, p.id);
        assert Pooled(s.pool, l, p.id);
      }
    }
    PutFair(p, pool, leader, id, Entry(tx, [], None));
    PutPooled(p, pool, leader, id, Entry(tx, [], None));
  }

  lemma StampFair(c: Config, p: Panel, s: State, id: TxId, node: Node, time: Time)
    requires p.members != [] && ClockInv(c, p, s) && (id == p.id ==> node in p.members && time == p.timeOf(node))
    ensures ClockInv(c, p, AddStamp(s, id, node, time))
  {
    if RawOf(s, id).Some? && node !in NodesOf(RawOf(s, id).value.stamps) {
      var e := RawOf(s, id).value;
      var more := e.stamps + [Stamp(node, time)];
      assert Pooled(s.pool, s.owner[id], id);
      assert NodesOf(more) == NodesOf(e.stamps) + [node];
      PutKnown(c, s.pool, s.owner[id], id, e.(stamps := more));
      PutFair(p, s.pool, s.owner[id], id, e.(stamps := more));
      PutPooled(p, s.pool, s.owner[id], id, e.(stamps := more));
      if id == p.id { assert IsPooled(p, s.pool); }
    }
  }

  lemma MoveFair(c: Config, p: Panel, s: State, id: TxId, now: int)
    requires c.Faithful() && c.rawId(p.tx) == p.id && p.members != [] && Distinct(p.members) &&
      |p.members| <= c.required
    requires ClockInv(c, p, s) && Have(s, id) >= NeedFor(c, LeadersOf(s, id))
    ensures ClockInv(c, p, Move(c, s, id, now))
  {
    if RawOf(s, id).Some? {
      var e := RawOf(s, id).value;
      assert Pooled(s.pool, s.owner[id], id);
      if id == p.id {
        assert IsPooled(p, s.pool);
        PanelAverage(c, p, e.stamps, s.leaders[id], now);
        assert e.tx == p.tx;
      }
      DropKnown(c, s.pool, s.owner[id], id);
      DropFair(p, s.pool, s.owner[id], id);
    }
  }

  lemma ClockStep(c: Config, p: Panel, s: State, e: Step)
    requires c.Faithful() && c.rawId(p.tx) == p.id && p.members != [] && Distinct(p.members) &&
      |p.members| <= c.required
    requires ClockInv(c, p, s) && Told(c, p, e)
    ensures ClockInv(c, p, Exec(c, s, e))
  {
    hide Known, FairPool, Move, AddStamp, DropRaw, AddRaw, RecordLeaders, IsPooled;
    match e {
      case Submit(leader, tx, admitted, room, leaders) =>
        if admitted { AcceptFair(c, p, s, leader, tx, room, leaders); }
      case Ingest(leader, tx, admitted, room, leaders) =>
        if admitted && c.rawId(tx) !in s.processed { AcceptFair(c, p, s, leader, tx, room, leaders); }
      case Report(id, found, sig, node, time, now) => ReportFair(c, p, s, id, found, sig, node, time, now);
      case Sweep(id, alone, now) => if Have(s, id) >= NeedFor(c, LeadersOf(s, id)) { MoveFair(c, p, s, id, now); }
      case Evict(id) => EvictFair(c, p, s, id);
      case Drain(leader, id) => RemoveFair(c, p, s, leader, id);
      case Reap(leader, id) => RemoveFair(c, p, s, leader, id);
      case Bound(leader, id, _) => RemoveFair(c, p, s, leader, id);
      case Recovery(leader, id, leaders) =>
        RecordFair(c, p, if id in s.owner then s else s.(owner := s.owner[id := leader]), id, leaders);
      case Restore(leader, id) => RestoreFair(c, p, s, leader, id);
      case FinalizeOne(h) =>
      case DropOne(h) =>
    }
  }

  lemma RemoveFair(c: Config, p: Panel, s: State, leader: Node, id: TxId)
    requires p.members != [] && ClockInv(c, p, s)
    ensures ClockInv(c, p, Remove(s, leader, id))
  {
    DropKnown(c, s.pool, leader, id);
    DropFair(p, s.pool, leader, id);
  }

  lemma EvictFair(c: Config, p: Panel, s: State, id: TxId)
    requires p.members != [] && ClockInv(c, p, s)
    ensures ClockInv(c, p, EvictMapped(s, id))
  {
    if id in s.owner { RemoveFair(c, p, s, s.owner[id], id); }
  }

  lemma RestoreFair(c: Config, p: Panel, s: State, leader: Node, id: TxId)
    requires p.members != [] && ClockInv(c, p, s)
    ensures ClockInv(c, p, Rehydrate(s, leader, id))
  {
  }

  lemma ReportFair(c: Config, p: Panel, s: State, id: TxId, found: bool, sig: SigVerdict, node: Node, time: Time,
        now: int)
    requires c.Faithful() && c.rawId(p.tx) == p.id && p.members != [] && Distinct(p.members) &&
      |p.members| <= c.required
    requires ClockInv(c, p, s) && (id == p.id ==> node in p.members && time == p.timeOf(node))
    ensures ClockInv(c, p, Complete(c, s, id, found, sig, node, time, now))
  {
    if id in s.processed || !found || sig.SigError? {
    } else if sig.SigInvalid? {
      EvictFair(c, p, s, id);
    } else {
      StampFair(c, p, s, id, node, time);
      var t := AddStamp(s, id, node, time);
      if Have(t, id) >= NeedFor(c, LeadersOf(t, id)) { MoveFair(c, p, t, id, now); }
    }
  }

  lemma {:induction false} ClockHolds(r: Run, p: Panel, t: nat)
    requires Panelled(r, p) && t < |r.states|
    ensures ClockInv(r.c, p, r.states[t])
  {
    if t > 0 {
      ClockHolds(r, p, t - 1);
      assert r.StepAt(t - 1);
      ClockStep(r.c, p, r.states[t - 1], r.steps[t - 1]);
    }
  }

  /** Two nodes that record one leader set of at most the required size for a transaction, and hear only its members,
      each with its one time, move it to processing under the same clock and the same validated hash: in whatever
      order the reports came, however often they were repeated, and whatever else happened to either node. */
  lemma SameClockEverywhere(r: Run, q: Run, p: Panel, t: nat, u: nat, i: nat, j: nat)
    requires Panelled(r, p) && Panelled(q, p) && r.c.nanos == q.c.nanos && r.c.validated == q.c.validated
    requires t < |r.states| && i < |r.states[t].log| && r.states[t].log[i].ToProcessing? &&
      r.states[t].log[i].id == p.id
    requires u < |q.states| && j < |q.states[u].log| && q.states[u].log[j].ToProcessing? &&
      q.states[u].log[j].id == p.id
    ensures r.states[t].log[i].clock == q.states[u].log[j].clock && r.states[t].log[i].hash == q.states[u].log[j].hash
  {
    ClockHolds(r, p, t);
    ClockHolds(q, p, u);
    assert Unanimous(r.c, p, r.states[t].log[i]) && Unanimous(q.c, p, q.states[u].log[j]);
    SameSum(r.c, q.c, PanelStamps(p));
  }

  lemma {:induction false} SameSum(c: Config, d: Config, s: seq<Stamp>)
    requires c.nanos == d.nanos
    ensures SumNanos(c, s) == SumNanos(d, s)
  {
    if s != [] { SameSum(c, d, s[..|s| - 1]); }
  }
}
