/** What becomes of a transaction submitted again after it was processed: a peer's copy is refused, a local one is
    not. */
module Resubmission {
  import opened Ordering
  import opened JsMap
  import opened Workflow

  // ---- a processed transaction submitted again ----

  /** A local submission is pooled, with no attestation, unless its submitter is over its share or it is tombstoned;
      whether it was processed before plays no part. */
  lemma SubmissionIsPooled(c: Config, s: State, leader: Node, tx: Tx, room: bool, leaders: seq<Node>)
    ensures var id := c.rawId(tx); var t := Exec(c, s, Submit(leader, tx, true, room, leaders));
      && (Pooled(t.pool, leader, id) <==> Pooled(s.pool, leader, id) || (room && id !in s.tombs))
      && (Pooled(t.pool, leader, id) ==>
            && t.pool[leader][id] == Entry(tx, [], if leaders == [] then None else Some(leaders))
            && t.owner == s.owner[id := leader])
      && t.processed == s.processed
  {
    hide AddRaw, RecordLeaders;
    var id := c.rawId(tx);
    AddedOrRefused(s, leader, id, tx, room);
    var a := AddRaw(s, leader, id, tx, room);
    RecordOwn(a.(owner := a.owner[id := leader]), leader, id, leaders);
  }

  lemma AddedOrRefused(s: State, leader: Node, id: TxId, tx: Tx, room: bool)
    ensures var a := AddRaw(s, leader, id, tx, room);
      && a == s.(pool := a.pool)
      && (Pooled(a.pool, leader, id) <==> Pooled(s.pool, leader, id) || (room && id !in s.tombs))
      && (Pooled(a.pool, leader, id) ==> a.pool[leader][id] == Entry(tx, [], None))
  {
  }

  lemma RecordOwn(s: State, leader: Node, id: TxId, leaders: seq<Node>)
    requires id in s.owner && s.owner[id] == leader
    ensures var t := RecordLeaders(s, id, leaders);
      && t.owner == s.owner && t.processed == s.processed
      && (Pooled(t.pool, leader, id) <==> Pooled(s.pool, leader, id))
      && (Pooled(t.pool, leader, id) ==>
            t.pool[leader][id] == if leaders == [] then s.pool[leader][id]
              else s.pool[leader][id].(leaders := Some(leaders)))
  {
  }

  /** The steps that take a processed transaction out of a submitter's pool: a drain, the bound, or an eviction
      through the submitter it is mapped to. */
  ghost predicate TakesOut(s: State, e: Step, leader: Node, id: TxId) {
    || (e.Drain? && e.leader == leader && e.id == id)
    || (e.Bound? && e.leader == leader && e.id == id)
    || (e.Evict? && e.id == id && id in s.owner && s.owner[id] == leader)
  }

  lemma PutPooled(pool: Pool, a: Node, x: TxId, e: Entry, leader: Node, id: TxId)
    ensures Pooled(PutRaw(pool, a, x, e), leader, id) <==> Pooled(pool, leader, id) || (a == leader && x == id)
  {
  }

  lemma DropPooled(pool: Pool, a: Node, x: TxId, leader: Node, id: TxId)
    ensures Pooled(DropRaw(pool, a, x), leader, id) <==> Pooled(pool, leader, id) && !(a == leader && x == id)
  {
  }

  lemma RecordPooled(s: State, x: TxId, leaders: seq<Node>, leader: Node, id: TxId)
    ensures Pooled(RecordLeaders(s, x, leaders).pool, leader, id) <==> Pooled(s.pool, leader, id)
  {
    if leaders != [] && RawOf(s, x).Some? {
      PutPooled(s.pool, s.owner[x], x, RawOf(s, x).value.(leaders := Some(leaders)), leader, id);
    }
  }

  lemma AddPooled(s: State, a: Node, x: TxId, tx: Tx, room: bool, leader: Node, id: TxId)
    requires Pooled(s.pool, leader, id)
    ensures Pooled(AddRaw(s, a, x, tx, room).pool, leader, id)
  {
    hide PutRaw;
    var pool := if a in s.pool then s.pool else s.pool[a := map[]];
    PutPooled(pool, a, x, Entry(tx, [], None), leader, id);
  }

  lemma AcceptPooled(s: State, a: Node, x: TxId, tx: Tx, room: bool, leaders: seq<Node>, leader: Node, id: TxId)
    requires Pooled(s.pool, leader, id)
    ensures Pooled(Accept(s, a, x, tx, room, leaders).pool, leader, id)
  {
    hide RecordLeaders, AddRaw;
    AddPooled(s, a, x, tx, room, leader, id);
    var t := AddRaw(s, a, x, tx, room);
    RecordPooled(t.(owner := t.owner[x := a]), x, leaders, leader, id);
  }

  lemma MovePooled(c: Config, s: State, x: TxId, now: int, leader: Node, id: TxId)
    requires Pooled(s.pool, leader, id) && x != id
    ensures Pooled(Move(c, s, x, now).pool, leader, id)
  {
    if RawOf(s, x).Some? { DropPooled(s.pool, s.owner[x], x, leader, id); }
  }

  lemma CompletePooled(c: Config, s: State, e: Step, leader: Node, id: TxId)
    requires e.Report? && Pooled(s.pool, leader, id) && id in s.processed
    ensures Pooled(Exec(c, s, e).pool, leader, id)
    ensures e.id == id ==> Exec(c, s, e) == s
  {
    hide Move, DropRaw, PutRaw;
    if e.id in s.processed || !e.found || e.sig.SigError? {
    } else if e.sig.SigInvalid? {
      if e.id in s.owner { DropPooled(s.pool, s.owner[e.id], e.id, leader, id); }
    } else {
      var t := AddStamp(s, e.id, e.node, e.time);
      if RawOf(s, e.id).Some? {
        var x := RawOf(s, e.id).value;
        PutPooled(s.pool, s.owner[e.id], e.id, x.(stamps := x.stamps + [Stamp(e.node, e.time)]), leader, id);
      }
      MovePooled(c, t, e.id, e.now, leader, id);
    }
  }

  /** A processed transaction that is pooled leaves a submitter's pool by exactly those steps; a report, a sweep, an
      age-based reap or a peer's copy of it changes nothing at all. */
  lemma PooledStep(c: Config, s: State, e: Step, leader: Node, id: TxId)
    requires Pooled(s.pool, leader, id) && id in s.processed
    ensures Pooled(Exec(c, s, e).pool, leader, id) <==> !TakesOut(s, e, leader, id)
    ensures (e.Report? && e.id == id) || (e.Sweep? && e.id == id) || (e.Reap? && e.id == id) ==> Exec(c, s, e) == s
    ensures e.Ingest? && c.rawId(e.tx) == id ==> Exec(c, s, e) == s
  {
    hide Accept, Complete, Move, RecordLeaders, DropRaw;
    match e
    case Submit(a, tx, _, room, leaders) => AcceptPooled(s, a, c.rawId(tx), tx, room, leaders, leader, id);
    case Ingest(a, tx, _, room, leaders) => AcceptPooled(s, a, c.rawId(tx), tx, room, leaders, leader, id);
    case Report(_, _, _, _, _, _) => CompletePooled(c, s, e, leader, id);
    case Sweep(x, _, now) => if x != id { MovePooled(c, s, x, now, leader, id); }
    case Evict(x) => if x in s.owner { DropPooled(s.pool, s.owner[x], x, leader, id); }
    case Drain(a, x) => DropPooled(s.pool, a, x, leader, id);
    case Reap(a, x) => DropPooled(s.pool, a, x, leader, id);
    case Bound(a, x, _) => DropPooled(s.pool, a, x, leader, id);
    case Recovery(a, x, leaders) =>
      RecordPooled(if x in s.owner then s else s.(owner := s.owner[x := a]), x, leaders, leader, id);
    case _ =>
  }

  ghost predicate LogGrows(s: State, t: State) {
    && s.processed <= t.processed && s.log <= t.log
    && forall i :: |s.log| <= i < |t.log| && t.log[i].ToProcessing? ==> t.log[i].id !in s.processed
  }

  lemma MoveLog(c: Config, s: State, id: TxId, now: int)
    requires id !in s.processed
    ensures LogGrows(s, Move(c, s, id, now))
  {
  }

  /** What is processed stays processed, and is not moved again. */
  lemma StepLog(c: Config, s: State, e: Step)
    ensures LogGrows(s, Exec(c, s, e))
  {
    hide RecordLeaders, AddStamp, Remove, Move;
    match e
    case Submit(a, tx, _, room, leaders) => AcceptLog(s, a, c.rawId(tx), tx, room, leaders);
    case Ingest(a, tx, _, room, leaders) => AcceptLog(s, a, c.rawId(tx), tx, room, leaders);
    case Report(id, found, sig, node, time, now) =>
      StampLog(s, id, node, time);
      EvictLog(s, id);
      if id !in s.processed { MoveLog(c, AddStamp(s, id, node, time), id, now); }
    case Sweep(id, _, now) => if id !in s.processed { MoveLog(c, s, id, now); }
    case Recovery(a, x, leaders) => RecordLog(if x in s.owner then s else s.(owner := s.owner[x := a]), x, leaders);
    case Evict(x) => EvictLog(s, x);
    case Drain(a, x) => RemoveLog(s, a, x);
    case Reap(a, x) => RemoveLog(s, a, x);
    case Bound(a, x, _) => RemoveLog(s, a, x);
    case _ =>
  }

  lemma RecordLog(s: State, x: TxId, leaders: seq<Node>)
    ensures RecordLeaders(s, x, leaders).log == s.log && RecordLeaders(s, x, leaders).processed == s.processed
  {
  }

  lemma AcceptLog(s: State, a: Node, x: TxId, tx: Tx, room: bool, leaders: seq<Node>)
    ensures Accept(s, a, x, tx, room, leaders).log == s.log &&
      Accept(s, a, x, tx, room, leaders).processed == s.processed
  {
    hide RecordLeaders;
    var t := AddRaw(s, a, x, tx, room);
    RecordLog(t.(owner := t.owner[x := a]), x, leaders);
  }

  lemma StampLog(s: State, id: TxId, node: Node, time: Time)
    ensures AddStamp(s, id, node, time).log == s.log && AddStamp(s, id, node, time).processed == s.processed
  {
  }

  lemma RemoveLog(s: State, a: Node, x: TxId)
    ensures Remove(s, a, x).log == s.log && Remove(s, a, x).processed == s.processed
  {
  }

  lemma EvictLog(s: State, x: TxId)
    ensures EvictMapped(s, x).log == s.log && EvictMapped(s, x).processed == s.processed
  {
  }

  /** A processed transaction that is pooled again stays pooled until a drain, the bound or an eviction takes it out. */
  lemma {:induction false} StaysPooled(r: Run, t: nat, u: nat, leader: Node, id: TxId)
    requires r.Valid() && t <= u < |r.states| && id in r.states[t].processed && Pooled(r.states[t].pool, leader, id)
    requires forall v :: t <= v < u ==> !TakesOut(r.states[v], r.steps[v], leader, id)
    ensures id in r.states[u].processed && Pooled(r.states[u].pool, leader, id)
    decreases u
  {
    hide Exec, Pooled, TakesOut;
    if t < u {
      StaysPooled(r, t, u - 1, leader, id);
      assert r.StepAt(u - 1);
      PooledStep(r.c, r.states[u - 1], r.steps[u - 1], leader, id);
      StepLog(r.c, r.states[u - 1], r.steps[u - 1]);
    }
  }

  /** So a local submission of something processed, taken for want of a check, sits in the pool through every report,
      sweep and age-based reaping. */
  lemma ResubmittedSits(r: Run, t: nat, u: nat)
    requires r.Valid() && t < u < |r.states| && r.steps[t].Submit? && r.steps[t].admitted && r.steps[t].room
    requires r.c.rawId(r.steps[t].tx) in r.states[t].processed && r.c.rawId(r.steps[t].tx) !in r.states[t].tombs
    requires forall v :: t < v < u ==> !TakesOut(r.states[v], r.steps[v], r.steps[t].leader, r.c.rawId(r.steps[t].tx))
    ensures Pooled(r.states[u].pool, r.steps[t].leader, r.c.rawId(r.steps[t].tx))
  {
    assert r.StepAt(t);
    var e := r.steps[t];
    SubmissionIsPooled(r.c, r.states[t], e.leader, e.tx, e.room, e.leaders);
    StaysPooled(r, t + 1, u, e.leader, r.c.rawId(e.tx));
  }

  // ---- what can still be promoted ----

  /** Run b agrees with run a up to time t. */
  ghost predicate Branches(a: Run, b: Run, t: nat) {
    && a.c == b.c && t < |a.states| && t < |b.states| && t <= |a.steps| && t <= |b.steps|
    && a.states[..t + 1] == b.states[..t + 1] && a.steps[..t] == b.steps[..t]
  }

  /** After time t, id is moved to processing. */
  ghost predicate PromotesAfter(r: Run, t: nat, id: TxId) requires t < |r.states| {
    var log := r.states[|r.states| - 1].log;
    exists i :: |r.states[t].log| <= i < |log| && log[i].ToProcessing? && log[i].id == id
  }

  /** Some continuation of r from time t moves id to processing. */
  ghost predicate CanStillPromote(r: Run, t: nat, id: TxId) {
    exists b: Run :: b.Valid() && Branches(r, b, t) && PromotesAfter(b, t, id)
  }

  lemma {:induction false} NoSecondMove(r: Run, t: nat, u: nat, id: TxId)
    requires r.Valid() && t <= u < |r.states| && id in r.states[t].processed
    ensures id in r.states[u].processed && r.states[t].log <= r.states[u].log
    ensures forall i :: |r.states[t].log| <= i < |r.states[u].log| && r.states[u].log[i].ToProcessing? ==>
      r.states[u].log[i].id != id
    decreases u
  {
    hide Exec;
    if t < u {
      NoSecondMove(r, t, u - 1, id);
      assert r.StepAt(u - 1);
      StepLog(r.c, r.states[u - 1], r.steps[u - 1]);
    }
  }

  lemma {:induction false} FreshNode(s: seq<Node>) returns (n: Node)
    ensures forall m | m in s :: m < n
  {
    if s == [] {
      n := 0;
    } else {
      var k := FreshNode(s[1..]);
      n := if s[0] < k then k else s[0] + 1;
      assert s == [s[0]] + s[1..];
    }
  }

  /** A report from a validator not heard before counts one more, and moves the transaction when that is enough. */
  lemma FreshReport(c: Config, s: State, id: TxId, n: Node)
    requires id !in s.processed && RawOf(s, id).Some? && n !in NodesOf(RawOf(s, id).value.stamps)
    ensures var t := Exec(c, s, Report(id, true, SigFine, n, 0, 0));
      if Have(s, id) + 1 >= NeedFor(c, LeadersOf(s, id))
      then |t.log| == |s.log| + 1 && t.log[|s.log|].ToProcessing? && t.log[|s.log|].id == id
      else id !in t.processed && RawOf(t, id).Some? && Have(t, id) == Have(s, id) + 1
           && LeadersOf(t, id) == LeadersOf(s, id) && t.log == s.log
  {
    var e := RawOf(s, id).value;
    var stamps := e.stamps + [Stamp(n, 0)];
    var t := AddStamp(s, id, n, 0);
    assert NodesOf(stamps) == NodesOf(e.stamps) + [n];
    assert Elements(NodesOf(stamps)) == Elements(NodesOf(e.stamps)) + {n};
    assert RawOf(t, id) == Some(e.(stamps := stamps));
    assert Have(t, id) == Have(s, id) + 1;
  }

  /** Enough fresh validators promote whatever is pooled under its submitter and not yet processed. */
  lemma {:induction false} Drive(r: Run, id: TxId, k: nat) returns (b: Run)
    requires r.Valid() && var s := r.states[|r.steps|];
      id !in s.processed && RawOf(s, id).Some? && Have(s, id) + k >= NeedFor(r.c, LeadersOf(s, id))
    ensures b.Valid() && b.c == r.c && r.states <= b.states && r.steps <= b.steps
    ensures PromotesAfter(b, |r.steps|, id)
    decreases k
  {
    hide Exec;
    var s := r.states[|r.steps|];
    var n := FreshNode(NodesOf(RawOf(s, id).value.stamps));
    var e := Report(id, true, SigFine, n, 0, 0);
    FreshReport(r.c, s, id, n);
    var r' := Run(r.c, r.states + [Exec(r.c, s, e)], r.steps + [e]);
    forall t: nat | t < |r'.steps| ensures r'.StepAt(t) { if t < |r.steps| { assert r.StepAt(t); } }
    if Have(s, id) + 1 >= NeedFor(r.c, LeadersOf(s, id)) {
      b := r';
      assert b.states[|b.states| - 1].log[|s.log|].id == id;
    } else {
      b := Drive(r', id, k - 1);
      assert b.states[|r.steps|] == s && b.states[|r'.steps|] == r'.states[|r'.steps|];
    }
  }

  /** A local submission that is pooled can still be promoted, in some continuation of the run, if and only if it had
      not been processed when it was submitted. */
  lemma PromotableIffNew(r: Run, t: nat)
    requires r.Valid() && t < |r.steps| && r.steps[t].Submit? && r.steps[t].admitted
    requires Pooled(r.states[t + 1].pool, r.steps[t].leader, r.c.rawId(r.steps[t].tx))
    ensures CanStillPromote(r, t + 1, r.c.rawId(r.steps[t].tx)) <==> r.c.rawId(r.steps[t].tx) !in r.states[t].processed
  {
    hide Exec, RawOf, Have, NeedFor, LeadersOf;
    var e := r.steps[t];
    var id := r.c.rawId(e.tx);
    assert r.StepAt(t);
    SubmissionIsPooled(r.c, r.states[t], e.leader, e.tx, e.room, e.leaders);
    if id !in r.states[t].processed {
      OwnerHolds(r.states[t + 1], e.leader, id);
      var a := Run(r.c, r.states[..t + 2], r.steps[..t + 1]);
      forall u: nat | u < |a.steps| ensures a.StepAt(u) { assert r.StepAt(u); }
      var b := Drive(a, id, NeedFor(r.c, LeadersOf(r.states[t + 1], id)));
      assert Branches(r, b, t + 1);
    } else if CanStillPromote(r, t + 1, id) {
      var b: Run :| b.Valid() && Branches(r, b, t + 1) && PromotesAfter(b, t + 1, id);
      assert b.states[t + 1] == b.states[..t + 2][t + 1] == r.states[..t + 2][t + 1];
      NoSecondMove(b, t + 1, |b.states| - 1, id);
    }
  }

  lemma OwnerHolds(s: State, leader: Node, id: TxId)
    requires Pooled(s.pool, leader, id) && id in s.owner && s.owner[id] == leader
    ensures RawOf(s, id).Some?
  {
  }
}
