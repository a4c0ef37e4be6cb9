/** Safety of seal agreement over whole runs: where votes come from, and when two resolved sets can overlap. */
module SealSafety {
  import opened Ordering
  import opened JsMap
  import opened SealAgreement
  import SR = SealRound
  import opened SealProtocol

  // ---- counting votes ----

  lemma BallotsAppend(a: seq<Vote>, b: seq<Vote>)
    ensures BallotsOf(None, a + b) == BallotsOf(None, a) + BallotsOf(None, b)
  {
  }

  lemma TallySnoc(votes: seq<Vote>, v: Vote, g: SetHash)
    ensures Tally(BallotsOf(None, votes + [v]), g)
         == Tally(BallotsOf(None, votes), g) + (if v.proposal.setHash == g then 1 else 0)
  {
    var b := BallotsOf(None, votes + [v]);
    assert b[..|b| - 1] == BallotsOf(None, votes);
  }

  lemma {:induction false} TallyVotesFor(h: SetHash, order: seq<Node>, ids: map<Node, seq<Key>>, g: SetHash)
    ensures Tally(BallotsOf(None, SR.VotesFor(h, order, ids)), g) == if g == h then |order| else 0
  {
    if order != [] {
      var front, n := order[..|order| - 1], order[|order| - 1];
      TallyVotesFor(h, front, ids, g);
      TallySnoc(SR.VotesFor(h, front, ids), Vote(n, Proposal(h, if n in ids then ids[n] else [])), g);
    }
  }

  /** The flattened peer tally counts, for each digest, the distinct nodes recorded under it. */
  lemma {:induction false} TallyVotesIn(order: seq<SetHash>, peers: map<SetHash, OrderedMap<Node, seq<Key>>>,
        g: SetHash)
    requires Distinct(order)
    ensures Tally(BallotsOf(None, SR.VotesIn(order, peers)), g)
         == if g in order && g in peers then |peers[g].order| else 0
  {
    if order != [] {
      var front, h := order[..|order| - 1], order[|order| - 1];
      TallyVotesIn(front, peers, g);
      assert order == front + [h];
      assert g in order <==> g in front || g == h;
      assert h !in front;
      var votes := if h in peers then SR.VotesFor(h, peers[h].order, peers[h].m) else [];
      BallotsAppend(SR.VotesIn(front, peers), votes);
      TallyAppend(BallotsOf(None, SR.VotesIn(front, peers)), BallotsOf(None, votes), g);
      if h in peers { TallyVotesFor(h, peers[h].order, peers[h].m, g); }
    }
  }

  /** My ballot plus the peers recorded under g. */
  lemma TallyOfRound(s: SR.Round, mine: Proposal, g: SetHash)
    requires RoundOk(s)
    ensures Tally(BallotsOf(Some(mine), SR.VotesIn(s.peers.order, s.peers.m)), g)
         == (if mine.setHash == g then 1 else 0) + (if g in s.peers.m then |s.peers.m[g].m| else 0)
  {
    var votes := SR.VotesIn(s.peers.order, s.peers.m);
    var ballots := BallotsOf(Some(mine), votes);
    TallyFromFront(ballots, g);
    assert ballots[1..] == BallotsOf(None, votes);
    TallyVotesIn(s.peers.order, s.peers.m, g);
    assert g in s.peers.m <==> g in Elements(s.peers.order);
    if g in s.peers.m {
      DistinctMultiset(s.peers.m[g].order);
      assert |s.peers.m[g].order| == |s.peers.m[g].m.Keys|;
    }
  }

  /** A node whose only recorded votes are for its own candidate seals it once they make a quorum with its own. */
  lemma SealsWhenBacked(s: SR.Round, l: SR.Ledger, c: nat, q: nat)
    requires c > 0 && q > 0 && RoundOk(s)
    requires var cand := CandidatePrefix(l.pool, c, 1); var h := HashOf(cand);
      && cand != [] && h !in s.done && (forall g | g in s.peers.m :: g == h)
      && (if h in s.peers.m then |s.peers.m[h].m| else 0) + 1 >= q
    ensures SR.Tick(s, l, c, q).outcome.action == SR.Sealed(HashOf(CandidatePrefix(l.pool, c, 1)))
  {
    var cand := CandidatePrefix(l.pool, c, 1);
    var mine := Proposal(HashOf(cand), cand);
    var votes := SR.VotesIn(s.peers.order, s.peers.m);
    DecideMeans(Some(mine), votes, q);
    var d := Decide(Some(mine), votes, q);
    TallyOfRound(s, mine, mine.setHash);
    assert !d.Stall?;
    TallyOfRound(s, mine, d.setHash);
  }

  // ---- provenance ----

  /** The nodes that had h as their own candidate by time t. */
  ghost function Proposers(r: Run, t: int, h: SetHash): (s: set<Node>) {
    set k: Node | 0 <= k < r.c.n && Proposed(r, t, k, h)
  }

  /** The set a tick resolves has a quorum among its recorded peers and itself. */
  lemma ResolvedTally(s: SR.Round, l: SR.Ledger, c: nat, q: nat, h: SetHash)
    requires c > 0 && q > 0 && RoundOk(s)
    ensures var a := SR.Tick(s, l, c, q).outcome.action; var cand := CandidatePrefix(l.pool, c, 1);
      a == SR.Sealed(h) || a == SR.Adopted(h) ==>
        cand != [] && (if HashOf(cand) == h then 1 else 0) + (if h in s.peers.m then |s.peers.m[h].m| else 0) >= q
  {
    var a, cand := SR.Tick(s, l, c, q).outcome.action, CandidatePrefix(l.pool, c, 1);
    if a == SR.Sealed(h) || a == SR.Adopted(h) {
      var mine := Proposal(HashOf(cand), cand);
      var votes := SR.VotesIn(s.peers.order, s.peers.m);
      DecideMeans(Some(mine), votes, q);
      TallyOfRound(s, mine, h);
      assert Decide(Some(mine), votes, q).setHash == h;
    }
  }

  /** A tick resolves only a set that a quorum of distinct leads stood behind. */
  lemma QuorumBehind(r: Run, t: nat, k: Node, h: SetHash) returns (voters: set<Node>)
    requires r.Valid() && Resolves(r, t, k, h)
    ensures |voters| >= r.c.Quorum()
    ensures forall j | j in voters :: j < r.c.n && Claimed(r, t, j, h)
  {
    hide SR.Tick;
    assert r.StepAt(t);
    RunInv(r, t);
    assert NodeInv(r, t, k);
    var node := r.states[t].nodes[k];
    var s := node.round;
    ResolvedTally(s, node.ledger, r.c.chunk, r.c.Quorum(), h);
    voters := if h in s.peers.m then s.peers.m[h].m.Keys else {};
    assert h in s.peers.m ==> |s.peers.m[h].m.Keys| == |s.peers.m[h].m|;
    if HashOf(Cand(r, t, k)) == h {
      assert HeldAt(r, t, k, h);
      assert Proposed(r, t, k, h);
      voters := voters + {k};
    }
  }

  /** In every run, a set sealed or adopted by anyone was the own candidate of at least a quorum of distinct
      leads by then: re-announcing resolved sets never manufactures a quorum. */
  lemma {:induction false} VoteProvenance(r: Run, t: nat, k: Node, h: SetHash)
    requires r.Valid() && Resolves(r, t, k, h)
    ensures |Proposers(r, t, h)| >= r.c.Quorum()
    decreases t
  {
    var voters := QuorumBehind(r, t, k, h);
    if j :| j in voters && ResolvedBefore(r, t, j, h) {
      var u :| 0 <= u < t && Resolves(r, u, j, h);
      VoteProvenance(r, u, j, h);
      ProposersGrow(r, u, t, h);
    } else {
      assert voters <= Proposers(r, t, h);
      SubsetSize(voters, Proposers(r, t, h));
    }
  }

  lemma ProposersGrow(r: Run, u: int, t: int, h: SetHash)
    requires u <= t
    ensures Proposers(r, u, h) <= Proposers(r, t, h)
    ensures |Proposers(r, u, h)| <= |Proposers(r, t, h)|
  {
    forall k | k in Proposers(r, u, h) ensures k in Proposers(r, t, h) { ClaimedLater(r, u, t, k, h); }
    SubsetSize(Proposers(r, u, h), Proposers(r, t, h));
  }

  /** Every announcement in flight is backed the same way: it is its sender's own candidate, or a quorum proposed it. */
  lemma AnnouncementProvenance(r: Run, t: nat, a: Announcement)
    requires r.Valid() && t < |r.states| && a in r.states[t].sent
    ensures Proposed(r, t, a.from, a.proposal.setHash) || |Proposers(r, t, a.proposal.setHash)| >= r.c.Quorum()
  {
    RunInv(r, t);
    var h := a.proposal.setHash;
    if !Proposed(r, t, a.from, h) {
      var u :| 0 <= u < t && Resolves(r, u, a.from, h);
      VoteProvenance(r, u, a.from, h);
      ProposersGrow(r, u, t, h);
    }
  }

  lemma Pigeonhole(a: set<Node>, b: set<Node>, n: nat) returns (k: Node)
    requires forall x | x in a :: x < n
    requires forall x | x in b :: x < n
    requires |a| + |b| > n
    ensures k in a && k in b
  {
    CountBelow(a + b, n);
    assert |a + b| == |a| + |b| - |a * b|;
    k :| k in a * b;
  }

  lemma {:induction false} CountBelow(s: set<Node>, n: nat)
    requires forall x | x in s :: x < n
    ensures |s| <= n
  {
    if n == 0 {
      assert s == {};
    } else {
      CountBelow(s - {n - 1}, n - 1);
    }
  }

  /** Any two resolved sets share a lead that proposed both, each by the time it was resolved. */
  lemma SharedProposer(r: Run, t: nat, i: Node, g: SetHash, u: nat, j: Node, h: SetHash) returns (k: Node)
    requires r.Valid() && Resolves(r, t, i, g) && Resolves(r, u, j, h)
    ensures k < r.c.n && Proposed(r, t, k, g) && Proposed(r, u, k, h)
  {
    VoteProvenance(r, t, i, g);
    VoteProvenance(r, u, j, h);
    k := Pigeonhole(Proposers(r, t, g), Proposers(r, u, h), r.c.n);
  }

  // ---- the premises ----

  ghost predicate Disjoint(a: seq<Key>, b: seq<Key>) { forall k | k in a :: k !in b }

  ghost function Pool(r: Run, t: int, k: Node): seq<Key> requires In(r, t, k) { r.states[t].nodes[k].ledger.pool }

  /** Step t hands a node a key that its pool does not hold and that lies below the top of its candidate. */
  ghost predicate Undercuts(r: Run, t: nat)
    requires r.c.chunk > 0 && t < |r.steps| && t < |r.states| && r.steps[t].node < |r.states[t].nodes|
  {
    && r.steps[t].Arrive?
    && r.steps[t].key !in r.states[t].nodes[r.steps[t].node].ledger.pool
    && var cand := Cand(r, t, r.steps[t].node); cand != [] && r.steps[t].key < cand[|cand| - 1]
  }

  ghost predicate NoUndercut(r: Run) requires r.Valid() {
    forall t :: 0 <= t < |r.steps| && r.StepAt(t) ==> !Undercuts(r, t)
  }

  /** Step t takes x out of node k's pool. */
  ghost predicate Leaves(r: Run, t: int, k: Node, x: Key) {
    In(r, t, k) && In(r, t + 1, k) && x in Pool(r, t, k) && x !in Pool(r, t + 1, k)
  }

  /** A key that left a node's pool, resolved or evicted, is never handed to that node again. */
  ghost predicate NoReturn(r: Run) {
    forall s, t :: 0 <= s < t < |r.steps| && r.steps[t].Arrive? ==> !Leaves(r, s, r.steps[t].node, r.steps[t].key)
  }

  /** Node j resolved z at step s, z holds x, and after step t node k's pool holds nothing of z. */
  ghost predicate GoesWith(r: Run, t: int, k: Node, x: Key, s: int, j: Node, z: SetHash) {
    Resolves(r, s, j, z) && x in z.keys && In(r, t + 1, k) && Disjoint(z.keys, Pool(r, t + 1, k))
  }

  /** An eviction takes out only sets that some node has already resolved, and all a pool holds of them. That is what
      adopting another node's cube does: the set is a face of it. */
  ghost predicate EvictsResolved(r: Run) {
    forall t, x :: 0 <= t < |r.steps| && r.steps[t].Evict? && Leaves(r, t, r.steps[t].node, x) ==>
      exists s, j, z :: s < t && GoesWith(r, t, r.steps[t].node, x, s, j, z)
  }

  /** The premise of agreement; with one or two leads, or sets of one key, undercutting does no harm. */
  ghost predicate Orderly(r: Run) requires r.Valid() {
    NoReturn(r) && EvictsResolved(r) && (NoUndercut(r) || r.c.n <= 2 || r.c.chunk == 1)
  }

  lemma PoolDistinct(r: Run, t: nat, k: Node)
    requires r.Valid() && t < |r.states| && k < r.c.n
    ensures In(r, t, k) && Distinct(r.states[t].nodes[k].ledger.pool)
  {
    RunInv(r, t);
    assert NodeInv(r, t, k);
  }

  // ---- how keys leave a pool ----

  /** A resolve takes exactly its set, all of which the pool held. */
  lemma ResolvedLeaves(r: Run, t: nat, k: Node, z: SetHash)
    requires r.Valid() && Resolves(r, t, k, z)
    ensures k < r.c.n && In(r, t, k) && In(r, t + 1, k) && forall x | x in z.keys :: Leaves(r, t, k, x)
    ensures Disjoint(z.keys, Pool(r, t + 1, k))
  {
    hide SR.Tick;
    RunInv(r, t);
    assert r.StepAt(t);
    PoolDistinct(r, t, k);
    PoolDistinct(r, t + 1, k);
    var node := r.states[t].nodes[k];
    TickLedger(node.round, node.ledger, r.c.chunk, r.c.Quorum());
  }

  /** Whatever leaves a pool leaves with the rest of a set resolved by then. */
  lemma Leaving(r: Run, t: nat, k: Node, x: Key) returns (s: nat, j: Node, z: SetHash)
    requires r.Valid() && EvictsResolved(r) && t < |r.steps| && Leaves(r, t, k, x)
    ensures s <= t && GoesWith(r, t, k, x, s, j, z)
  {
    hide SR.Tick;
    assert r.StepAt(t);
    RunInv(r, t);
    PoolDistinct(r, t, k);
    var node := r.states[t].nodes[k];
    assert r.steps[t].node == k;
    if r.steps[t].Tick? {
      TickLedger(node.round, node.ledger, r.c.chunk, r.c.Quorum());
      s, j, z := t, k, TickAt(r, t).outcome.action.setHash;
      WithoutElements(node.ledger.pool, z.keys);
    } else {
      assert r.steps[t].Evict?;
      var s', j', z' :| s' < t && GoesWith(r, t, k, x, s', j', z');
      s, j, z := s', j', z';
    }
  }

  lemma {:induction false} FindLeave(r: Run, a: nat, k: Node, x: Key, b: nat) returns (m: nat)
    requires r.Valid() && k < r.c.n && a <= b < |r.states| && In(r, a, k) && In(r, b, k)
    requires x in Pool(r, a, k) && x !in Pool(r, b, k)
    ensures a <= m < b && Leaves(r, m, k, x)
    decreases b - a
  {
    PoolDistinct(r, a + 1, k);
    if x in Pool(r, a + 1, k) { m := FindLeave(r, a + 1, k, x, b); } else { m := a; }
  }

  /** One step keeps a key out of a pool it is not handed to. */
  lemma StepKeepsOut(r: Run, t: nat, k: Node, x: Key)
    requires r.Valid() && t < |r.steps| && k < r.c.n && In(r, t, k) && In(r, t + 1, k)
    requires r.steps[t].node == k && r.steps[t].Arrive? ==> r.steps[t].key != x
    requires x !in Pool(r, t, k)
    ensures x !in Pool(r, t + 1, k)
  {
    hide SR.Tick;
    assert r.StepAt(t);
    PoolDistinct(r, t, k);
    var node := r.states[t].nodes[k];
    if r.steps[t] == Tick(k) {
      TickLedger(node.round, node.ledger, r.c.chunk, r.c.Quorum());
      WithoutElements(node.ledger.pool, TickKeys(r, t));
    } else if r.steps[t].Evict? && r.steps[t].node == k {
      WithoutElements(node.ledger.pool, r.steps[t].keys);
    }
  }

  /** The keys a tick takes out of its node's pool. */
  ghost function TickKeys(r: Run, t: nat): seq<Key>
    requires r.c.chunk > 0 && t < |r.steps| && t < |r.states| && r.steps[t].Tick? &&
      r.steps[t].node < |r.states[t].nodes|
  {
    var a := TickAt(r, t).outcome.action;
    if a.Sealed? || a.Adopted? then a.setHash.keys else []
  }

  /** A key that has left a pool stays out. */
  lemma {:induction false} StaysOut(r: Run, m: nat, k: Node, x: Key, u: nat)
    requires r.Valid() && NoReturn(r) && Leaves(r, m, k, x) && m < u < |r.states| && k < r.c.n
    ensures In(r, u, k) && x !in Pool(r, u, k)
    decreases u
  {
    PoolDistinct(r, u, k);
    if m + 1 < u {
      StaysOut(r, m, k, x, u - 1);
      StepKeepsOut(r, u - 1, k, x);
    }
  }

  /** A key once pooled and then missing never comes back. */
  lemma GoneForGood(r: Run, a: nat, k: Node, x: Key, m: nat, u: nat)
    requires r.Valid() && NoReturn(r) && a <= m <= u < |r.states| && k < r.c.n && In(r, a, k) && In(r, m, k)
    requires x in Pool(r, a, k) && x !in Pool(r, m, k)
    ensures In(r, u, k) && x !in Pool(r, u, k)
  {
    var l := FindLeave(r, a, k, x, m);
    StaysOut(r, l, k, x, u);
  }

  // ---- what a resolved set is ----

  /** A candidate is its own digest. */
  lemma CandFacts(r: Run, t: nat, k: Node)
    requires r.Valid() && t < |r.states| && k < r.c.n
    ensures In(r, t, k) && var x, c := Cand(r, t, k), r.c.chunk;
      HashOf(x).keys == x && (x != [] ==>
        && |x| == c && Sorted(x) && Distinct(x) && (forall y | y in x :: y in Pool(r, t, k))
        && (forall y | y in Pool(r, t, k) && y !in x :: x[c - 1] < y))
  {
    PoolDistinct(r, t, k);
    CandidateShape(Pool(r, t, k), r.c.chunk);
    SortOfSorted(Cand(r, t, k));
  }

  lemma HeldFacts(r: Run, a: int, k: Node, h: SetHash)
    requires r.Valid() && k < r.c.n && HeldAt(r, a, k, h)
    ensures h.keys == Cand(r, a, k) && |h.keys| == r.c.chunk && forall y | y in h.keys :: y in Pool(r, a, k)
  {
    CandFacts(r, a, k);
  }

  lemma ResolvedSize(r: Run, t: nat, i: Node, g: SetHash)
    requires r.Valid() && Resolves(r, t, i, g)
    ensures |g.keys| == r.c.chunk
  {
    hide Proposed;
    var k := SharedProposer(r, t, i, g, t, i, g);
    var a := ProposalTime(r, t, k, g);
    HeldFacts(r, a, k, g);
  }

  lemma ProposalTime(r: Run, t: nat, k: Node, g: SetHash) returns (a: nat)
    requires Proposed(r, t, k, g)
    ensures a <= t && HeldAt(r, a, k, g)
  {
    a :| 0 <= a <= t && HeldAt(r, a, k, g);
  }

  // ---- no split brain ----

  /** One node never resolves overlapping sets. */
  lemma OneNode(r: Run, t: nat, k: Node, g: SetHash, u: nat, h: SetHash)
    requires r.Valid() && NoReturn(r) && Resolves(r, t, k, g) && Resolves(r, u, k, h) && t < u
    ensures Disjoint(g.keys, h.keys)
  {
    ResolvedLeaves(r, t, k, g);
    ResolvedLeaves(r, u, k, h);
    forall x | x in g.keys ensures x !in h.keys {
      StaysOut(r, t, k, x, u);
      assert x in h.keys ==> Leaves(r, u, k, x);
    }
  }

  /** No split brain. In a run where nothing is handed to a node below the top of its candidate, nothing that left a
      pool comes back to it, and only resolved sets are evicted, any two sets sealed or adopted anywhere, at any
      times, are equal or disjoint. */
  lemma {:induction false} NoSplitBrain(r: Run, t: nat, i: Node, g: SetHash, u: nat, j: Node, h: SetHash)
    requires r.Valid() && Orderly(r)
    requires Resolves(r, t, i, g) && Resolves(r, u, j, h)
    ensures g == h || Disjoint(g.keys, h.keys)
    decreases t + u, 3
  {
    hide SR.Tick, NoReturn, EvictsResolved, NoUndercut, Resolves, Proposed;
    if r.c.chunk == 1 {
      ResolvedSize(r, t, i, g);
      ResolvedSize(r, u, j, h);
      OneKeySets(g, h);
    } else if r.c.n <= 2 {
      FewLeads(r, t, i, g, u, j, h);
    } else {
      var k := SharedProposer(r, t, i, g, u, j, h);
      var a := ProposalTime(r, t, k, g);
      var b := ProposalTime(r, u, k, h);
      if a < b && g != h { ChangedMind(r, a, b, k, t, i, g, u, h); }
      if b < a && g != h { ChangedMind(r, b, a, k, u, j, h, t, g); }
    }
  }

  lemma OneKeySets(g: SetHash, h: SetHash)
    requires |g.keys| == 1 && |h.keys| == 1
    ensures g == h || Disjoint(g.keys, h.keys)
  {
    if g.keys[0] == h.keys[0] { assert g.keys == h.keys; }
  }

  /** A lead that proposed the resolved set g, lost a key of it and later proposed h: g left its pool whole. */
  lemma LeftBehind(r: Run, a: nat, b: nat, k: Node, t: nat, i: Node, g: SetHash, u: nat, h: SetHash, y: Key)
    requires r.Valid() && Orderly(r) && k < r.c.n && a < b <= u && HeldAt(r, a, k, g) && HeldAt(r, b, k, h)
    requires Resolves(r, t, i, g) && y in g.keys && y !in Pool(r, b, k)
    ensures Disjoint(g.keys, h.keys)
    decreases t + u, 0
  {
    hide SR.Tick, NoReturn, EvictsResolved, NoUndercut, Resolves;
    HeldFacts(r, a, k, g);
    HeldFacts(r, b, k, h);
    var m := FindLeave(r, a, k, y, b);
    var s, j, z := Leaving(r, m, k, y);
    NoSplitBrain(r, t, i, g, s, j, z);
    assert z == g;
    forall x | x in g.keys ensures x !in h.keys { GoneForGood(r, a, k, x, m + 1, b); }
  }

  /** A lead that proposed one resolved set and later another, undercut by nothing, has lost a key of the first. */
  lemma ChangedMind(r: Run, a: nat, b: nat, k: Node, t: nat, i: Node, g: SetHash, u: nat, h: SetHash)
    requires r.Valid() && Orderly(r) && r.c.n > 2 && r.c.chunk > 1 && k < r.c.n && a < b <= u
    requires HeldAt(r, a, k, g) && HeldAt(r, b, k, h) && g != h && Resolves(r, t, i, g)
    ensures Disjoint(g.keys, h.keys)
    decreases t + u, 1
  {
    hide SR.Tick, NoReturn, EvictsResolved, NoUndercut, Resolves;
    HeldFacts(r, a, k, g);
    HeldFacts(r, b, k, h);
    var m, y := Displaced(r, a, b, k);
    StaysOut(r, m, k, y, b);
    LeftBehind(r, a, b, k, t, i, g, u, h, y);
  }

  /** Without undercutting, a candidate changes only when one of its keys leaves the pool. */
  lemma StepKeepsCandidate(r: Run, t: nat, k: Node)
    requires r.Valid() && NoUndercut(r) && t < |r.steps| && k < r.c.n
    requires In(r, t, k) && In(r, t + 1, k) && Cand(r, t, k) != []
    requires forall y | y in Cand(r, t, k) :: y in Pool(r, t + 1, k)
    ensures Cand(r, t + 1, k) == Cand(r, t, k)
  {
    hide SR.Tick, Leaves;
    assert r.StepAt(t);
    PoolDistinct(r, t, k);
    PoolDistinct(r, t + 1, k);
    CandFacts(r, t, k);
    var x := Cand(r, t, k);
    forall y | y in Pool(r, t + 1, k) && y !in x ensures x[r.c.chunk - 1] < y {
      if y !in Pool(r, t, k) {
        assert r.steps[t] == Arrive(k, y) by { if r.steps[t] != Arrive(k, y) { StepKeepsOut(r, t, k, y); } }
        assert !Undercuts(r, t);
        assert x[r.c.chunk - 1] in x;
      }
    }
    CandidateUnique(Pool(r, t + 1, k), r.c.chunk, x);
  }

  lemma {:induction false} Displaced(r: Run, a: nat, b: nat, k: Node) returns (m: nat, y: Key)
    requires r.Valid() && NoUndercut(r) && a < b < |r.states| && k < r.c.n
    requires In(r, a, k) && In(r, b, k) && Cand(r, a, k) != [] && Cand(r, b, k) != Cand(r, a, k)
    ensures a <= m < b && y in Cand(r, a, k) && Leaves(r, m, k, y)
    decreases b - a
  {
    hide SR.Tick, NoUndercut, CandidatePrefix;
    PoolDistinct(r, a + 1, k);
    CandFacts(r, a, k);
    if x :| x in Cand(r, a, k) && x !in Pool(r, a + 1, k) {
      m, y := a, x;
    } else {
      StepKeepsCandidate(r, a, k);
      m, y := Displaced(r, a + 1, b, k);
    }
  }

  // ---- one and two leads ----

  lemma FewLeads(r: Run, t: nat, i: Node, g: SetHash, u: nat, j: Node, h: SetHash)
    requires r.Valid() && Orderly(r) && r.c.n <= 2
    requires Resolves(r, t, i, g) && Resolves(r, u, j, h)
    ensures g == h || Disjoint(g.keys, h.keys)
    decreases t + u, 2
  {
    hide SR.Tick, NoReturn, EvictsResolved, NoUndercut;
    ResolvedLeaves(r, t, i, g);
    ResolvedLeaves(r, u, j, h);
    if i == j {
      if t < u { OneNode(r, t, i, g, u, h); }
      if u < t { OneNode(r, u, i, h, t, g); }
    } else if g != h {
      if t < u { TwoLeads(r, t, i, g, u, j, h); } else { TwoLeads(r, u, j, h, t, i, g); }
    }
  }

  /** Two leads resolve only their own candidate: a peer's vote alone is no quorum. */
  lemma OwnOfTwo(r: Run, t: nat, i: Node, g: SetHash)
    requires r.Valid() && r.c.n == 2 && Resolves(r, t, i, g) && i < 2
    ensures HeldAt(r, t, i, g)
  {
    hide SR.Tick, Claimed, RoundOk;
    assert r.StepAt(t);
    RunInv(r, t);
    assert NodeInv(r, t, i);
    var s := r.states[t].nodes[i].round;
    ResolvedTally(s, r.states[t].nodes[i].ledger, r.c.chunk, r.c.Quorum(), g);
    if g in s.peers.m {
      var voters := s.peers.m[g].m.Keys;
      assert voters <= {1 - i};
      SubsetSize(voters, {1 - i});
      assert |voters| == |s.peers.m[g].m|;
    }
  }

  /** And only what both proposed. */
  lemma BothPropose(r: Run, t: nat, i: Node, g: SetHash, j: Node) returns (a: nat)
    requires r.Valid() && r.c.n == 2 && Resolves(r, t, i, g) && i < 2 && j < 2 && i != j
    ensures HeldAt(r, t, i, g)
    ensures a <= t && HeldAt(r, a, j, g)
  {
    hide SR.Tick, Proposed, HeldAt, Resolves;
    OwnOfTwo(r, t, i, g);
    VoteProvenance(r, t, i, g);
    if !Proposed(r, t, j, g) { SubsetSize(Proposers(r, t, g), {i}); }
    a := ProposalTime(r, t, j, g);
  }

  /** Where two candidates differ, one of the two pools lacks a key of the other set. */
  lemma OneLacks(r: Run, t: nat, i: Node, g: SetHash, u: nat, j: Node, h: SetHash) returns (y: Key)
    requires r.Valid() && i < r.c.n && j < r.c.n && HeldAt(r, t, i, g) && HeldAt(r, u, j, h) && g != h
    ensures (y in g.keys && y !in Pool(r, u, j)) || (y in h.keys && y !in Pool(r, t, i))
  {
    hide SR.Tick, Run.Valid, Cand;
    CandFacts(r, t, i);
    CandFacts(r, u, j);
    HeldFacts(r, t, i, g);
    HeldFacts(r, u, j, h);
    y := FirstDifference(g.keys, h.keys);
  }

  lemma TwoLeads(r: Run, t: nat, i: Node, g: SetHash, u: nat, j: Node, h: SetHash)
    requires r.Valid() && Orderly(r) && r.c.n == 2 && t < u && i != j && i < 2 && j < 2
    requires Resolves(r, t, i, g) && Resolves(r, u, j, h) && g != h
    ensures Disjoint(g.keys, h.keys)
    decreases t + u, 1
  {
    hide SR.Tick, NoReturn, EvictsResolved, NoUndercut, Proposed, Resolves, Cand, Leaves;
    var a := BothPropose(r, t, i, g, j);
    var b := BothPropose(r, u, j, h, i);
    if t < b {
      HeldFacts(r, b, i, h);
      ResolvedLeaves(r, t, i, g);
      forall x | x in g.keys ensures x !in h.keys { StaysOut(r, t, i, x, b); }
    } else {
      var y := OneLacks(r, t, i, g, u, j, h);
      if y in g.keys && y !in Pool(r, u, j) {
        LeftBehind(r, a, u, j, t, i, g, u, h, y);
      } else {
        assert b < t;
        LeftBehind(r, b, t, i, u, j, h, t, g, y);
      }
    }
  }

  /** Of two different sorted sets of one size, the least key in one only lies below the top of the other. */
  lemma FirstDifference(g: seq<Key>, h: seq<Key>) returns (y: Key)
    requires Sorted(g) && Distinct(g) && Sorted(h) && Distinct(h) && |g| == |h| > 0 && g != h
    ensures (y in g && y !in h && y < h[|h| - 1]) || (y in h && y !in g && y < g[|g| - 1])
  {
    var p :| 0 <= p < |g| && g[p] != h[p];
    while exists q :: 0 <= q < p && g[q] != h[q]
      invariant 0 <= p < |g| && g[p] != h[p]
      decreases p
    {
      var q :| 0 <= q < p && g[q] != h[q];
      p := q;
    }
    y := Min(g[p], h[p]);
    assert forall q | 0 <= q < |g| :: (q < p ==> g[q] == h[q] < y) && (q >= p ==> g[q] >= g[p] && h[q] >= h[p]);
  }

  /** The same for the chains the nodes hold: whatever faces any two nodes have sealed, at any two times, two of
      them never share a key without being the same face. */
  lemma ChainsNeverFork(r: Run, t: nat, i: Node, f: seq<Key>, u: nat, j: Node, g: seq<Key>)
    requires r.Valid() && Orderly(r)
    requires In(r, t, i) && In(r, u, j) && f in r.states[t].nodes[i].ledger.faces &&
      g in r.states[u].nodes[j].ledger.faces
    ensures f == g || Disjoint(f, g)
  {
    hide SR.Tick, Resolves;
    RunInv(r, t);
    RunInv(r, u);
    assert NodeInv(r, t, i) && NodeInv(r, u, j);
    var a :| 0 <= a < t && Resolves(r, a, i, SetHash(f));
    var b :| 0 <= b < u && Resolves(r, b, j, SetHash(g));
    NoSplitBrain(r, a, i, SetHash(f), b, j, SetHash(g));
  }
}
