/** How a node routes validation reports to its workflow: once each, from assigned validators, early ones buffered. */
module Reports {
  import opened Ordering
  import opened JsMap
  import W = Workflow

  type TxId = W.TxId
  type Node = W.Node

  datatype Rep = Rep(task: nat, time: W.Time, node: Node)
  datatype Router = Router(applied: set<(TxId, Node)>, pending: map<TxId, seq<Rep>>)

  /** One report to the workflow, unless that validator's was handed over already. */
  function Apply(s: Router, id: TxId, r: Rep): (Router, seq<Rep>) {
    if (id, r.node) in s.applied then (s, []) else (s.(applied := s.applied + {(id, r.node)}), [r])
  }

  function ApplyAll(s: Router, id: TxId, rs: seq<Rep>): (Router, seq<Rep>) {
    if rs == [] then (s, [])
    else
      var (t, out) := ApplyAll(s, id, rs[..|rs| - 1]);
      var (u, more) := Apply(t, id, rs[|rs| - 1]);
      (u, out + more)
  }

  /** A peer's report: our own echo and repeats are dropped; with the leader set known only a member's counts; before
      that it waits. */
  function Receive(s: Router, self: Node, leaders: Option<seq<Node>>, id: TxId, r: Rep): (Router, seq<Rep>) {
    if r.node == self || (id, r.node) in s.applied then (s, [])
    else if leaders.Some? then (if r.node in leaders.value then Apply(s, id, r) else (s, []))
    else (s.(pending := s.pending[id := (if id in s.pending then s.pending[id] else []) + [r]]), [])
  }

  /** The transaction arrived: everything buffered for it is handed over. */
  function Flush(s: Router, id: TxId): (Router, seq<Rep>) {
    if id !in s.pending then (s, []) else ApplyAll(s.(pending := s.pending - {id}), id, s.pending[id])
  }

  // ---- what is handed over, without the functions above ----

  /** The first waiting report of a validator none of whose reports was handed over before. */
  ghost predicate FirstFresh(applied: set<(TxId, Node)>, id: TxId, rs: seq<Rep>, i: int) {
    0 <= i < |rs| && (id, rs[i].node) !in applied && forall j :: 0 <= j < i ==> rs[j].node != rs[i].node
  }

  /** `at` lists those places, in order, and `out` the reports there. */
  ghost predicate Picks(applied: set<(TxId, Node)>, id: TxId, rs: seq<Rep>, out: seq<Rep>, at: seq<int>) {
    && |at| == |out|
    && (forall k :: 0 <= k < |at| ==> FirstFresh(applied, id, rs, at[k]) && out[k] == rs[at[k]])
    && (forall j, k :: 0 <= j < k < |at| ==> at[j] < at[k])
    && (forall i :: FirstFresh(applied, id, rs, i) ==> i in at)
  }

  ghost predicate HandsOver(applied: set<(TxId, Node)>, id: TxId, rs: seq<Rep>, out: seq<Rep>) {
    exists at :: Picks(applied, id, rs, out, at)
  }

  function Waiting(pending: map<TxId, seq<Rep>>, id: TxId): seq<Rep> { if id in pending then pending[id] else [] }

  lemma {:induction false} ApplyAllHandsOver(s: Router, id: TxId, rs: seq<Rep>)
    ensures HandsOver(s.applied, id, rs, ApplyAll(s, id, rs).1)
    ensures ApplyAll(s, id, rs).0 == s.(applied := s.applied + NamesIn(id, rs))
  {
    if rs == [] {
      assert Picks(s.applied, id, rs, [], []);
    } else {
      var n := |rs| - 1;
      var (t, out) := ApplyAll(s, id, rs[..n]);
      ApplyAllHandsOver(s, id, rs[..n]);
      var at :| Picks(s.applied, id, rs[..n], out, at);
      var more := Apply(t, id, rs[n]).1;
      assert NamesIn(id, rs) == NamesIn(id, rs[..n]) + {(id, rs[n].node)} by {
        assert forall i :: 0 <= i < n ==> rs[..n][i] == rs[i];
      }
      PickOneMore(s.applied, id, rs, out, at);
    }
  }

  function NamesIn(id: TxId, rs: seq<Rep>): set<(TxId, Node)> { set i | 0 <= i < |rs| :: (id, rs[i].node) }

  lemma FreshGrows(applied: set<(TxId, Node)>, id: TxId, rs: seq<Rep>)
    requires rs != []
    ensures forall i :: i < |rs| - 1 ==>
      (FirstFresh(applied, id, rs, i) <==> FirstFresh(applied, id, rs[..|rs| - 1], i))
    ensures FirstFresh(applied, id, rs, |rs| - 1) <==>
      (id, rs[|rs| - 1].node) !in applied + NamesIn(id, rs[..|rs| - 1])
  {
    var n := |rs| - 1;
    assert forall j :: 0 <= j < n ==> rs[..n][j] == rs[j];
    assert (id, rs[n].node) in NamesIn(id, rs[..n]) <==> exists j :: 0 <= j < n && rs[..n][j].node == rs[n].node;
  }

  lemma PickOneMore(applied: set<(TxId, Node)>, id: TxId, rs: seq<Rep>, out: seq<Rep>, at: seq<int>)
    requires rs != [] && Picks(applied, id, rs[..|rs| - 1], out, at)
    ensures HandsOver(applied, id, rs,
              out + if (id, rs[|rs| - 1].node) in applied + NamesIn(id, rs[..|rs| - 1]) then [] else [rs[|rs| - 1]])
  {
    var n := |rs| - 1;
    FreshGrows(applied, id, rs);
    assert forall k :: 0 <= k < |at| ==> 0 <= at[k] < n;
    assert forall i :: FirstFresh(applied, id, rs, i) ==> i <= n;
    hide FirstFresh, NamesIn;
    if FirstFresh(applied, id, rs, n) {
      var next := at + [n];
      forall i | FirstFresh(applied, id, rs, i) ensures i in next {
        if i == n { assert next[|at|] == n; } else { assert i in at; }
      }
      assert Picks(applied, id, rs, out + [rs[n]], next);
    } else {
      assert Picks(applied, id, rs, out, at);
      assert out + [] == out;
    }
  }

  class ReportRouter {
    const self: Node
    var appliedReports: set<(TxId, Node)>
    var pendingReports: map<TxId, seq<Rep>>

    ghost function State(): Router reads this { Router(appliedReports, pendingReports) }

    constructor (self: Node)
      ensures this.self == self && State() == Router({}, map[])
    {
      this.self := self;
      appliedReports, pendingReports := {}, map[];
    }

    method ApplyReport(id: TxId, r: Rep) returns (out: seq<Rep>)
      modifies this
      ensures (State(), out) == Apply(old(State()), id, r)
      ensures out == (if (id, r.node) in old(appliedReports) then [] else [r])
      ensures appliedReports == old(appliedReports) + {(id, r.node)} && pendingReports == old(pendingReports)
    {
      if (id, r.node) in appliedReports { return []; }
      appliedReports := appliedReports + {(id, r.node)};
      return [r];
    }

    method OnReport(leaders: Option<seq<Node>>, id: TxId, r: Rep) returns (out: seq<Rep>)
      modifies this
      ensures (State(), out) == Receive(old(State()), self, leaders, id, r)
      // The node's own report, one of a validator counted already, and an outsider's change nothing.
      ensures r.node == self || (id, r.node) in old(appliedReports) || (leaders.Some? && r.node !in leaders.value) ==>
        out == [] && State() == old(State())
      // A member's is handed over at once; before the leader set is known it waits its turn.
      ensures r.node != self && (id, r.node) !in old(appliedReports) && leaders.Some? && r.node in leaders.value ==>
        && out == [r] && pendingReports == old(pendingReports)
        && appliedReports == old(appliedReports) + {(id, r.node)}
      ensures r.node != self && (id, r.node) !in old(appliedReports) && leaders.None? ==>
        && out == [] && appliedReports == old(appliedReports)
        && pendingReports == old(pendingReports)[id := Waiting(old(pendingReports), id) + [r]]
    {
      if r.node == self { return []; }
      if (id, r.node) in appliedReports { return []; }
      if leaders.Some? {
        if r.node !in leaders.value { return []; }
        out := ApplyReport(id, r);
      } else {
        var q := if id in pendingReports then pendingReports[id] else [];
        pendingReports := pendingReports[id := q + [r]];
        return [];
      }
    }

    method FlushPendingReports(id: TxId) returns (out: seq<Rep>)
      modifies this
      ensures (State(), out) == Flush(old(State()), id)
      // In order of arrival, the first waiting report of each validator not counted yet; nothing waits any longer.
      ensures HandsOver(old(appliedReports), id, Waiting(old(pendingReports), id), out)
      ensures appliedReports == old(appliedReports) + NamesIn(id, Waiting(old(pendingReports), id))
      ensures pendingReports == old(pendingReports) - {id}
    {
      out := [];
      ApplyAllHandsOver(State().(pending := pendingReports - {id}), id, Waiting(pendingReports, id));
      hide HandsOver;
      if id !in pendingReports { return; }
      var q := pendingReports[id];
      pendingReports := pendingReports - {id};
      ghost var start := State();
      var i := 0;
      while i < |q|
        invariant 0 <= i <= |q|
        invariant (State(), out) == ApplyAll(start, id, q[..i])
      {
        assert q[..i + 1][..i] == q[..i];
        var more := ApplyReport(id, q[i]);
        out := out + more;
        i := i + 1;
      }
      assert q[..i] == q;
    }
  }

  // ---- what the routing guarantees, and where the guard stops ----

  ghost predicate AllFrom(rs: seq<Rep>, leaders: seq<Node>) { forall i :: 0 <= i < |rs| ==> rs[i].node in leaders }

  ghost predicate FreshFrom(s: Router, id: TxId, rs: seq<Rep>, leaders: seq<Node>) {
    forall i :: 0 <= i < |rs| && (id, rs[i].node) !in s.applied ==> rs[i].node in leaders
  }

  ghost predicate Named(rs: seq<Rep>, node: Node) { exists i :: 0 <= i < |rs| && rs[i].node == node }

  lemma NamedAppend(a: seq<Rep>, b: seq<Rep>, node: Node)
    ensures Named(a + b, node) <==> Named(a, node) || Named(b, node)
  {
    if Named(a + b, node) {
      var i :| 0 <= i < |a + b| && (a + b)[i].node == node;
      if i < |a| { assert a[i].node == node; } else { assert b[i - |a|].node == node; }
    }
    if Named(a, node) {
      var i :| 0 <= i < |a| && a[i].node == node;
      assert (a + b)[i].node == node;
    }
    if Named(b, node) {
      var i :| 0 <= i < |b| && b[i].node == node;
      assert (a + b)[|a| + i].node == node;
    }
  }

  /** Exactly the handed-over validators become applied, and every validator offered ends up applied. */
  lemma {:induction false} ApplyAllNames(s: Router, id: TxId, rs: seq<Rep>, k: (TxId, Node))
    ensures var (t, out) := ApplyAll(s, id, rs);
      && (k in t.applied <==> k in s.applied || (k.0 == id && Named(out, k.1)))
      && (Named(rs, k.1) && k.0 == id ==> k in t.applied)
      && (Named(out, k.1) ==> Named(rs, k.1) && (id, k.1) !in s.applied)
  {
    if rs != [] {
      var n := |rs| - 1;
      ApplyAllNames(s, id, rs[..n], k);
      ApplyAllNames(s, id, rs[..n], (id, rs[n].node));
      assert rs == rs[..n] + [rs[n]];
      var (t, out) := ApplyAll(s, id, rs[..n]);
      NamedAppend(out, Apply(t, id, rs[n]).1, k.1);
      NamedAppend(rs[..n], [rs[n]], k.1);
      OneName(rs[n], k.1);
    }
  }

  lemma OneName(r: Rep, node: Node)
    ensures Named([r], node) <==> r.node == node
  {
    assert [r][0] == r;
  }

  lemma {:induction false} ApplyAllDistinct(s: Router, id: TxId, rs: seq<Rep>)
    ensures forall i, j :: 0 <= i < j < |ApplyAll(s, id, rs).1| ==>
      ApplyAll(s, id, rs).1[i].node != ApplyAll(s, id, rs).1[j].node
  {
    if rs != [] {
      var n := |rs| - 1;
      ApplyAllDistinct(s, id, rs[..n]);
      ApplyAllNames(s, id, rs[..n], (id, rs[n].node));
    }
  }

  /** Reports that arrived earlier skip that check: a flush hands over members only if and only if members only were
      waiting (counting those not applied yet). */
  lemma FlushedAreMembersIff(s: Router, id: TxId, leaders: seq<Node>)
    requires id in s.pending
    ensures AllFrom(Flush(s, id).1, leaders) <==> FreshFrom(s, id, s.pending[id], leaders)
  {
    var start, rs := s.(pending := s.pending - {id}), s.pending[id];
    var out := Flush(s, id).1;
    forall x: Node ensures Named(out, x) <==> Named(rs, x) && (id, x) !in s.applied {
      ApplyAllNames(start, id, rs, (id, x));
    }
    if AllFrom(out, leaders) {
      forall i | 0 <= i < |rs| && (id, rs[i].node) !in s.applied ensures rs[i].node in leaders {
        assert Named(rs, rs[i].node);
        var j :| 0 <= j < |out| && out[j].node == rs[i].node;
      }
    }
    if FreshFrom(s, id, rs, leaders) {
      forall i | 0 <= i < |out| ensures out[i].node in leaders {
        assert Named(out, out[i].node);
        var k :| 0 <= k < |rs| && rs[k].node == out[i].node;
      }
    }
  }

  /** An outsider's report that beats the transaction is handed over, whoever the validators turn out to be. */
  lemma OutsiderIsFlushed(s: Router, self: Node, id: TxId, r: Rep, leaders: seq<Node>)
    requires r.node != self && (id, r.node) !in s.applied && id !in s.pending && r.node !in leaders
    ensures Flush(Receive(s, self, None, id, r).0, id).1 == [r]
    ensures Receive(s, self, Some(leaders), id, r).1 == []
  {
    var t := Receive(s, self, None, id, r).0;
    assert t.pending[id] == [r];
    assert ApplyAll(t.(pending := t.pending - {id}), id, []) == (t.(pending := t.pending - {id}), []);
    assert [r][..0] == [];
  }

  /** And the workflow counts it: it asks for a known task and a new name, not for membership. One attestation short,
      any new name completes the quorum. */
  lemma AnyNameCompletes(c: W.Config, s: W.State, id: TxId, r: Rep, now: int)
    requires id !in s.processed && W.RawOf(s, id).Some? && r.node !in W.NodesOf(W.RawOf(s, id).value.stamps)
    requires W.Have(s, id) + 1 == W.NeedFor(c, W.LeadersOf(s, id))
    ensures var t := W.Complete(c, s, id, true, W.SigFine, r.node, r.time, now);
      |t.log| == |s.log| + 1 && t.log[|s.log|].ToProcessing? && t.log[|s.log|].id == id
  {
    var e := W.RawOf(s, id).value;
    var t := W.AddStamp(s, id, r.node, r.time);
    var nodes := W.NodesOf(e.stamps);
    var more := e.stamps + [W.Stamp(r.node, r.time)];
    assert W.RawOf(t, id) == Some(e.(stamps := more));
    assert W.NodesOf(more) == nodes + [r.node];
    assert Elements(nodes + [r.node]) == Elements(nodes) + {r.node};
    assert W.Count(more) == W.Count(e.stamps) + 1;
  }

  // ---- once each ----

  datatype Step = Arrives(leaders: Option<seq<Node>>, id: TxId, r: Rep) | Flushes(id: TxId)

  function Exec(s: Router, self: Node, e: Step): (Router, seq<Rep>) {
    match e
    case Arrives(leaders, id, r) => Receive(s, self, leaders, id, r)
    case Flushes(id) => Flush(s, id)
  }

  function Tagged(id: TxId, out: seq<Rep>): (r: seq<(TxId, Rep)>)
    ensures |r| == |out| && forall i :: 0 <= i < |out| ==> r[i] == (id, out[i])
  {
    seq(|out|, i requires 0 <= i < |out| => (id, out[i]))
  }

  /** The router after some steps, and everything handed over, with its transaction. */
  function RunAll(self: Node, steps: seq<Step>): (Router, seq<(TxId, Rep)>) {
    if steps == [] then (Router({}, map[]), [])
    else
      var n := |steps| - 1;
      var (s, log) := RunAll(self, steps[..n]);
      var (t, out) := Exec(s, self, steps[n]);
      (t, log + Tagged(steps[n].id, out))
  }

  function KeyOf(x: (TxId, Rep)): (TxId, Node) { (x.0, x.1.node) }

  ghost predicate AllApplied(s: Router, log: seq<(TxId, Rep)>) {
    forall i :: 0 <= i < |log| ==> KeyOf(log[i]) in s.applied
  }

  ghost predicate EachOnce(log: seq<(TxId, Rep)>) {
    forall i, j :: 0 <= i < j < |log| ==> KeyOf(log[i]) != KeyOf(log[j])
  }

  /** Whatever order reports and transactions come in and however often, the workflow is handed at most one report of
      each validator for each transaction. */
  lemma {:induction false} HandedOnce(self: Node, steps: seq<Step>)
    ensures AllApplied(RunAll(self, steps).0, RunAll(self, steps).1)
    ensures EachOnce(RunAll(self, steps).1)
  {
    if steps != [] {
      var n := |steps| - 1;
      HandedOnce(self, steps[..n]);
      var (s, log) := RunAll(self, steps[..n]);
      var (t, out) := Exec(s, self, steps[n]);
      OneStepHandsNew(s, self, steps[n]);
      var added := Tagged(steps[n].id, out);
      var all := log + added;
      assert RunAll(self, steps) == (t, all);
      forall i | 0 <= i < |log| ensures KeyOf(all[i]) in s.applied { assert all[i] == log[i]; }
      forall i | |log| <= i < |all| ensures KeyOf(all[i]) == (steps[n].id, out[i - |log|].node) {
        assert all[i] == added[i - |log|];
      }
    } else {
      var (s, log) := RunAll(self, steps);
      assert log == [];
    }
  }

  lemma OneStepHandsNew(s: Router, self: Node, e: Step)
    ensures var (t, out) := Exec(s, self, e);
      && s.applied <= t.applied
      && (forall i :: 0 <= i < |out| ==> (e.id, out[i].node) !in s.applied && (e.id, out[i].node) in t.applied)
      && (forall i, j :: 0 <= i < j < |out| ==> out[i].node != out[j].node)
  {
    if e.Flushes? && e.id in s.pending {
      var start, rs := s.(pending := s.pending - {e.id}), s.pending[e.id];
      ApplyAllDistinct(start, e.id, rs);
      var (t, out) := Exec(s, self, e);
      forall k ensures k in t.applied <==> k in s.applied || (k.0 == e.id && Named(out, k.1)) {
        ApplyAllNames(start, e.id, rs, k);
      }
      forall i | 0 <= i < |out| ensures (e.id, out[i].node) !in s.applied && (e.id, out[i].node) in t.applied {
        ApplyAllNames(start, e.id, rs, (e.id, out[i].node));
        assert Named(out, out[i].node);
      }
    }
  }
}
