/** n leads running the round manager over gossip that may lose, repeat, delay and reorder announcements.
    A run is a sequence of states and steps; sent announcements are never forgotten, so a delivery may repeat
    any of them at any time and need not ever happen. */
module SealProtocol {
  import opened Ordering
  import opened JsMap
  import opened SealAgreement
  import SR = SealRound

  datatype Config = Config(n: nat, chunk: nat) {
    ghost predicate Valid() { n > 0 && chunk > 0 }
    function Quorum(): nat { SealQuorumFrom(n) }
  }

  datatype NodeState = NodeState(round: SR.Round, ledger: SR.Ledger)
  datatype Announcement = Announcement(from: Node, proposal: Proposal)
  datatype System = System(nodes: seq<NodeState>, sent: set<Announcement>)

  /** A pool admission, an eviction of keys from a pool outside agreement (cube adoption, an invalid transaction), a
      gossip delivery, or one agreement step at a node. */
  datatype Step =
    | Arrive(node: Node, key: Key)
    | Evict(node: Node, keys: seq<Key>)
    | Deliver(node: Node, a: Announcement)
    | Tick(node: Node)

  function Init(c: Config): System {
    System(seq(c.n, _ => NodeState(SR.NewRound(), SR.Ledger([], []))), {})
  }

  predicate Enabled(sys: System, step: Step) {
    step.node < |sys.nodes| && (step.Deliver? ==> step.a in sys.sent)
  }

  function Post(from: Node, ps: seq<Proposal>): (r: set<Announcement>) {
    set p | p in ps :: Announcement(from, p)
  }

  /** The pool is a set: admitting a key it holds changes nothing. */
  function Admit(pool: seq<Key>, k: Key): seq<Key> { if k in pool then pool else pool + [k] }

  /** One step. A node's own echo is dropped. */
  function Exec(c: Config, sys: System, step: Step): (r: System)
    requires c.chunk > 0 && Enabled(sys, step)
  {
    var i := step.node;
    var node := sys.nodes[i];
    match step
    case Arrive(_, k) =>
      sys.(nodes := sys.nodes[i := node.(ledger := node.ledger.(pool := Admit(node.ledger.pool, k)))])
    case Evict(_, ks) =>
      sys.(nodes := sys.nodes[i := node.(ledger := node.ledger.(pool := Without(node.ledger.pool, ks)))])
    case Deliver(_, a) =>
      if a.from == i then sys
      else
        var r := SR.OnPeer(node.round, Vote(a.from, a.proposal));
        System(sys.nodes[i := node.(round := r.0)], sys.sent + Post(i, r.1))
    case Tick(_) =>
      var r := SR.Tick(node.round, node.ledger, c.chunk, c.Quorum());
      System(sys.nodes[i := NodeState(r.outcome.round, r.outcome.ledger)], sys.sent + Post(i, r.sent))
  }

  /** What a step did, as its node sees it; only a tick acts. */
  function ActionOf(c: Config, sys: System, step: Step): SR.Action
    requires c.chunk > 0 && Enabled(sys, step)
  {
    if step.Tick? then
      var node := sys.nodes[step.node];
      SR.Tick(node.round, node.ledger, c.chunk, c.Quorum()).outcome.action
    else SR.Idle
  }

  /** States, steps, and what each step did. */
  datatype Run = Run(c: Config, states: seq<System>, steps: seq<Step>, acts: seq<SR.Action>) {
    ghost predicate Valid() {
      && c.Valid()
      && |states| == |steps| + 1 == |acts| + 1
      && states[0] == Init(c)
      && forall t :: 0 <= t < |steps| ==> StepAt(t)
    }

    ghost predicate StepAt(t: nat) requires c.chunk > 0 && t < |steps| && |states| == |steps| + 1 == |acts| + 1 {
      Enabled(states[t], steps[t]) && states[t + 1] == Exec(c, states[t], steps[t]) &&
        acts[t] == ActionOf(c, states[t], steps[t])
    }
  }

  // ---- what happened in a run ----

  ghost predicate In(r: Run, t: int, k: Node) { 0 <= t < |r.states| && k < |r.states[t].nodes| }

  /** Node k's candidate at time t. */
  ghost function Cand(r: Run, t: nat, k: Node): seq<Key>
    requires r.c.chunk > 0 && In(r, t, k)
  {
    CandidatePrefix(r.states[t].nodes[k].ledger.pool, r.c.chunk, 1)
  }

  /** Node k had h as its own candidate at time u. */
  ghost predicate HeldAt(r: Run, u: int, k: Node, h: SetHash) {
    r.c.chunk > 0 && In(r, u, k) && Cand(r, u, k) != [] && HashOf(Cand(r, u, k)) == h
  }

  ghost predicate Proposed(r: Run, t: int, k: Node, h: SetHash) {
    exists u :: 0 <= u <= t && HeldAt(r, u, k, h)
  }

  ghost function TickAt(r: Run, t: nat): SR.TickResult
    requires r.c.chunk > 0 && t < |r.steps| && t < |r.states| && r.steps[t].Tick? &&
      r.steps[t].node < |r.states[t].nodes|
  {
    var node := r.states[t].nodes[r.steps[t].node];
    SR.Tick(node.round, node.ledger, r.c.chunk, r.c.Quorum())
  }

  /** Step t is a tick of k that sealed or adopted h. */
  ghost predicate Resolves(r: Run, t: int, k: Node, h: SetHash) {
    0 <= t < |r.steps| && t < |r.acts| && r.steps[t] == Tick(k) &&
      (r.acts[t] == SR.Sealed(h) || r.acts[t] == SR.Adopted(h))
  }

  ghost predicate ResolvedBefore(r: Run, t: int, k: Node, h: SetHash) {
    exists u :: 0 <= u < t && Resolves(r, u, k, h)
  }

  ghost predicate Claimed(r: Run, t: int, k: Node, h: SetHash) {
    Proposed(r, t, k, h) || ResolvedBefore(r, t, k, h)
  }

  lemma ClaimedLater(r: Run, t: int, t': int, k: Node, h: SetHash)
    requires t <= t'
    ensures Proposed(r, t, k, h) ==> Proposed(r, t', k, h)
    ensures ResolvedBefore(r, t, k, h) ==> ResolvedBefore(r, t', k, h)
    ensures Claimed(r, t, k, h) ==> Claimed(r, t', k, h)
  {
  }

  // ---- what a step does to a node ----

  ghost predicate RoundOk(s: SR.Round) {
    s.peers.Valid() && s.doneMembers.Valid() && forall h | h in s.peers.m :: s.peers.m[h].Valid()
  }

  lemma MarkDoneOk(s: SR.Round, h: SetHash, ids: seq<Key>)
    requires RoundOk(s)
    ensures RoundOk(SR.MarkDone(s, h, ids))
    ensures SR.MarkDone(s, h, ids).peers.m == s.peers.m - {h}
    ensures forall g | g in SR.MarkDone(s, h, ids).doneMembers.m :: g == h || g in s.doneMembers.m
    ensures SR.MarkDone(s, h, ids).done <= s.done + {h}
  {
  }

  lemma {:induction false} VouchFrom(recent: seq<SetHash>, members: map<SetHash, seq<Key>>)
    ensures forall p | p in SR.Vouch(recent, members) :: p.setHash in members && p.setHash in recent
  {
    if recent != [] { VouchFrom(recent[..|recent| - 1], members); }
  }

  lemma SealedPool(l: SR.Ledger, items: seq<Key>)
    requires Distinct(l.pool)
    ensures Distinct(SR.SealSet(l, items).pool)
    ensures forall k | k in SR.SealSet(l, items).pool :: k in l.pool
    ensures (forall k | k in items :: k in l.pool) ==>
              && SR.SealSet(l, items).pool == Without(l.pool, items)
              && SR.SealSet(l, items).faces == l.faces + [Sort(items)]
              && forall k | k in items :: k !in SR.SealSet(l, items).pool
  {
    WithoutElements(l.pool, items);
  }

  /** What a tick may do to a ledger: nothing, or move exactly the resolved set from the pool to the faces. */
  ghost predicate MovesResolved(s: SR.Round, l: SR.Ledger, o: SR.Outcome) {
    && (o.action.Sealed? || o.action.Adopted? ==>
          && (forall k | k in o.action.setHash.keys :: k in l.pool && k !in o.ledger.pool)
          && o.ledger.pool == Without(l.pool, o.action.setHash.keys)
          && o.ledger.faces == l.faces + [o.action.setHash.keys])
    && (!o.action.Sealed? && !o.action.Adopted? ==> o.ledger == l && o.round == s)
    && Distinct(o.ledger.pool)
  }

  lemma SealMoves(s: SR.Round, l: SR.Ledger, cand: seq<Key>)
    requires Distinct(l.pool) && Sorted(cand) && forall k | k in cand :: k in l.pool
    ensures MovesResolved(s, l, SR.Act(s, l, cand, Seal(HashOf(cand))))
  {
    hide SR.MarkDone;
    SortOfSorted(cand);
    SealedPool(l, cand);
  }

  lemma AdoptMoves(s: SR.Round, l: SR.Ledger, cand: seq<Key>, h: SetHash, ids: seq<Key>)
    requires Distinct(l.pool)
    ensures MovesResolved(s, l, SR.Act(s, l, cand, Adopt(h, ids)))
  {
    hide SR.MarkDone;
    var items := Within(l.pool, ids);
    WithinElements(l.pool, ids);
    if SR.AdoptSet(l, h, ids).Some? {
      SealedPool(l, items);
      SortElements(items);
      WithoutSame(l.pool, items, h.keys);
      assert h.keys == Sort(items);
    }
  }

  /** Which candidate, if any, a tick concludes on. */
  lemma TickConcludes(s: SR.Round, l: SR.Ledger, c: nat, q: nat)
    requires c > 0
    ensures var cand := CandidatePrefix(l.pool, c, 1); var o := SR.Tick(s, l, c, q).outcome;
      if cand == [] || HashOf(cand) in s.done then o == SR.Outcome(s, l, SR.Idle)
      else
        var d := Decide(Some(Proposal(HashOf(cand), cand)), SR.VotesIn(s.peers.order, s.peers.m), q);
        o == SR.Act(s, l, cand, d) && (d.Seal? ==> d.setHash == HashOf(cand))
  {
    hide CandidatePrefix, HashOf, SR.Act, SR.Vouch, SR.VotesIn, VotesOf, WinnerAmong, FirstFor, BallotsOf;
  }

  /** So an agreement step never takes a key out of the pool without sealing it, nor seals one it does not hold. */
  lemma TickLedger(s: SR.Round, l: SR.Ledger, c: nat, q: nat)
    requires c > 0 && Distinct(l.pool)
    ensures MovesResolved(s, l, SR.Tick(s, l, c, q).outcome)
  {
    hide SR.Tick, CandidatePrefix, HashOf, SR.Act, Decide, MovesResolved;
    var cand := CandidatePrefix(l.pool, c, 1);
    TickConcludes(s, l, c, q);
    CandidateShape(l.pool, c);
    if cand == [] || HashOf(cand) in s.done {
      StaysMoves(s, l, SR.Idle);
    } else {
      match Decide(Some(Proposal(HashOf(cand), cand)), SR.VotesIn(s.peers.order, s.peers.m), q) {
        case Seal(h) => SealMoves(s, l, cand);
        case Adopt(h, ids) => AdoptMoves(s, l, cand, h, ids);
        case Stall => StallMoves(s, l, cand);
      }
    }
  }

  lemma StaysMoves(s: SR.Round, l: SR.Ledger, a: SR.Action)
    requires Distinct(l.pool) && !a.Sealed? && !a.Adopted?
    ensures MovesResolved(s, l, SR.Outcome(s, l, a))
  {
  }

  lemma StallMoves(s: SR.Round, l: SR.Ledger, cand: seq<Key>)
    requires Distinct(l.pool)
    ensures MovesResolved(s, l, SR.Act(s, l, cand, Stall))
  {
    StaysMoves(s, l, SR.Stalled);
  }

  lemma {:induction false} WithoutSame(s: seq<Key>, a: seq<Key>, b: seq<Key>)
    requires forall k :: k in a <==> k in b
    ensures Without(s, a) == Without(s, b)
  {
    if s != [] {
      KeepStep(s, x => x !in a);
      KeepStep(s, x => x !in b);
      WithoutSame(s[1..], a, b);
    }
  }

  // ---- the invariant of every run ----

  ghost predicate NodeInv(r: Run, t: nat, i: Node)
    requires In(r, t, i)
  {
    var node := r.states[t].nodes[i];
    && Distinct(node.ledger.pool)
    && RoundOk(node.round)
    && (forall h, j :: h in node.round.peers.m && j in node.round.peers.m[h].m ==>
      j != i && j < r.c.n && Claimed(r, t, j, h))
    && (forall h :: h in node.round.doneMembers.m ==> ResolvedBefore(r, t, i, h))
    && (forall h :: h in node.round.done ==> ResolvedBefore(r, t, i, h))
    && (forall f :: f in node.ledger.faces ==> ResolvedBefore(r, t, i, SetHash(f)))
  }

  ghost predicate Inv(r: Run, t: nat)
    requires t < |r.states|
  {
    && |r.states[t].nodes| == r.c.n
    && (forall i :: 0 <= i < r.c.n ==> NodeInv(r, t, i))
    && (forall a :: a in r.states[t].sent ==> a.from < r.c.n && Claimed(r, t, a.from, a.proposal.setHash))
  }

  /** Everything a node holds after step t it held before, or it has a reason in step t. */
  ghost predicate Grows(r: Run, t: nat, i: Node)
    requires In(r, t, i) && In(r, t + 1, i)
  {
    var node, node' := r.states[t].nodes[i], r.states[t + 1].nodes[i];
    && Distinct(node'.ledger.pool) && RoundOk(node'.round)
    && (forall h, j | h in node'.round.peers.m && j in node'.round.peers.m[h].m ::
          (h in node.round.peers.m && j in node.round.peers.m[h].m) || (j != i && j < r.c.n && Claimed(r, t, j, h)))
    && (forall h | h in node'.round.doneMembers.m || h in node'.round.done ::
          h in node.round.doneMembers.m || h in node.round.done || Resolves(r, t, i, h))
    && (forall f | f in node'.ledger.faces :: f in node.ledger.faces || Resolves(r, t, i, SetHash(f)))
  }

  lemma GrowsKeepsInv(r: Run, t: nat, i: Node)
    requires In(r, t, i) && In(r, t + 1, i) && NodeInv(r, t, i) && Grows(r, t, i)
    ensures NodeInv(r, t + 1, i)
  {
    var node' := r.states[t + 1].nodes[i];
    forall h, j | h in node'.round.peers.m && j in node'.round.peers.m[h].m
      ensures j != i && j < r.c.n && Claimed(r, t + 1, j, h)
    {
      ClaimedLater(r, t, t + 1, j, h);
    }
    forall h | ResolvedBefore(r, t, i, h) || Resolves(r, t, i, h) ensures ResolvedBefore(r, t + 1, i, h) {
      ClaimedLater(r, t, t + 1, i, h);
    }
  }

  /** A delivered proposal adds at most its own vote. */
  lemma OnPeerRound(s: SR.Round, v: Vote)
    requires RoundOk(s)
    ensures var s' := SR.OnPeer(s, v).0;
      && RoundOk(s')
      && s'.doneMembers == s.doneMembers && s'.done == s.done
      && (forall h, j | h in s'.peers.m && j in s'.peers.m[h].m ::
            (h in s.peers.m && j in s.peers.m[h].m) || (h == v.proposal.setHash && j == v.nodeId))
    ensures forall p | p in SR.OnPeer(s, v).1 :: p.setHash in s.doneMembers.m
  {
  }

  lemma StepGrows(r: Run, t: nat, i: Node)
    requires r.Valid() && t < |r.steps| && Inv(r, t) && i < r.c.n
    ensures In(r, t, i) && In(r, t + 1, i) && Grows(r, t, i)
  {
    hide SR.Tick, SR.OnPeer;
    assert r.StepAt(t);
    assert NodeInv(r, t, i);
    var node, node' := r.states[t].nodes[i], r.states[t + 1].nodes[i];
    if i == r.steps[t].node {
      match r.steps[t] {
        case Arrive(_, _) =>
        case Evict(_, ks) =>
          WithoutElements(node.ledger.pool, ks);
        case Deliver(_, a) =>
          OnPeerRound(node.round, Vote(a.from, a.proposal));
        case Tick(_) =>
          var o := TickAt(r, t).outcome;
          assert node' == NodeState(o.round, o.ledger);
          TickLedger(node.round, node.ledger, r.c.chunk, r.c.Quorum());
          TickRound(node.round, node.ledger, r.c.chunk, r.c.Quorum());
          if o.action.Sealed? || o.action.Adopted? {
            assert Resolves(r, t, i, o.action.setHash);
            assert SetHash(o.action.setHash.keys) == o.action.setHash;
          }
      }
    }
  }

  /** What a tick does to the round state. */
  lemma TickRound(s: SR.Round, l: SR.Ledger, c: nat, q: nat)
    requires c > 0 && RoundOk(s)
    ensures var o := SR.Tick(s, l, c, q).outcome;
      && RoundOk(o.round)
      && (forall h | h in o.round.peers.m :: h in s.peers.m && o.round.peers.m[h] == s.peers.m[h])
      && (forall h | h in o.round.doneMembers.m || h in o.round.done ::
            h in s.doneMembers.m || h in s.done || ((o.action.Sealed? || o.action.Adopted?) && o.action.setHash == h))
  {
    hide SR.MarkDone, Decide, CandidatePrefix, HashOf, SR.Vouch, SR.VotesIn;
    var cand := CandidatePrefix(l.pool, c, 1);
    if cand != [] && HashOf(cand) !in s.done {
      var d := Decide(Some(Proposal(HashOf(cand), cand)), SR.VotesIn(s.peers.order, s.peers.m), q);
      match d {
        case Seal(h) => MarkDoneOk(s, h, cand);
        case Adopt(h, ids) => MarkDoneOk(s, h, ids);
        case Stall =>
      }
    }
  }

  lemma SentInv(r: Run, t: nat, a: Announcement)
    requires r.Valid() && t < |r.steps| && Inv(r, t) && a in r.states[t + 1].sent
    ensures a.from < r.c.n && Claimed(r, t + 1, a.from, a.proposal.setHash)
  {
    assert r.StepAt(t);
    if a in r.states[t].sent {
      ClaimedLater(r, t, t + 1, a.from, a.proposal.setHash);
    } else {
      var i := r.steps[t].node;
      assert NodeInv(r, t, i);
      var node := r.states[t].nodes[i];
      assert a.from == i;
      match r.steps[t] {
        case Arrive(_, _) =>
        case Evict(_, _) =>
        case Deliver(_, d) =>
          OnPeerRound(node.round, Vote(d.from, d.proposal));
        case Tick(_) =>
          VouchFrom(SR.Last(node.round.doneOrder, SR.DONE_REBROADCAST), node.round.doneMembers.m);
          if a.proposal.setHash !in node.round.doneMembers.m {
            assert HeldAt(r, t, i, a.proposal.setHash);
            assert Proposed(r, t, i, a.proposal.setHash);
          }
      }
      ClaimedLater(r, t, t + 1, i, a.proposal.setHash);
    }
  }

  lemma {:induction false} RunInv(r: Run, t: nat)
    requires r.Valid() && t < |r.states|
    ensures Inv(r, t)
  {
    hide SR.Tick, SR.OnPeer, Grows;
    if t > 0 {
      hide NodeInv;
      RunInv(r, t - 1);
      assert r.StepAt(t - 1);
      forall i | 0 <= i < r.c.n ensures NodeInv(r, t, i) {
        StepGrows(r, t - 1, i);
        GrowsKeepsInv(r, t - 1, i);
      }
      forall a | a in r.states[t].sent ensures a.from < r.c.n && Claimed(r, t, a.from, a.proposal.setHash) {
        SentInv(r, t - 1, a);
      }
    }
  }

}
