/** The premises of NoSplitBrain are needed. A key handed to nodes whose candidate is `x` can start a split brain
    exactly when there are three or more leads, sets of two or more, and it lies below the top of `x`; and dropping
    either of the other two premises, keys that come back or evictions of unresolved keys, lets a run split as
    well. */
module SealSplit {
  import opened Ordering
  import opened JsMap
  import opened SealAgreement
  import SR = SealRound
  import opened SealProtocol
  import opened SealSafety

  /** Two different overlapping sets were resolved, at steps t and u. */
  ghost predicate Overlap(r: Run, t: int, i: Node, g: SetHash, u: int, j: Node, h: SetHash) {
    Resolves(r, t, i, g) && Resolves(r, u, j, h) && g != h && !Disjoint(g.keys, h.keys)
  }

  ghost predicate SplitBrain(r: Run) {
    exists t, i, g, u, j, h :: Overlap(r, t, i, g, u, j, h)
  }

  /** Every undercutting arrival of the run hands k to a node whose candidate is x. */
  ghost predicate OnlyUndercut(r: Run, x: seq<Key>, k: Key) requires r.Valid() {
    forall t :: 0 <= t < |r.steps| && r.StepAt(t) && Undercuts(r, t) ==>
      Cand(r, t, r.steps[t].node) == x && r.steps[t].key == k
  }

  /** Some run whose only undercutting arrivals hand k to a node proposing x ends with two overlapping resolved sets. */
  ghost predicate CanSplit(c: Config, x: seq<Key>, k: Key) {
    exists r: Run :: r.Valid() && r.c == c && NoReturn(r) && EvictsResolved(r) && OnlyUndercut(r, x, k) && SplitBrain(r)
  }

  // ---- extending a run by one step ----

  function Now(r: Run): System requires r.states != [] { r.states[|r.states| - 1] }

  function Extend(r: Run, step: Step): Run
    requires r.states != [] && r.c.chunk > 0 && Enabled(Now(r), step)
  {
    Run(r.c, r.states + [Exec(r.c, Now(r), step)], r.steps + [step], r.acts + [ActionOf(r.c, Now(r), step)])
  }

  /** Run b continues run a. */
  ghost predicate Continues(a: Run, b: Run) {
    a.c == b.c && a.steps <= b.steps && a.states <= b.states && a.acts <= b.acts
  }

  lemma SamePast(a: Run, b: Run, t: nat, k: Node, h: SetHash)
    requires a.Valid() && b.Valid() && Continues(a, b) && t < |a.steps|
    ensures Resolves(a, t, k, h) <==> Resolves(b, t, k, h)
    ensures a.StepAt(t) && b.StepAt(t)
    ensures Undercuts(a, t) <==> Undercuts(b, t)
    ensures a.steps[t] == b.steps[t]
    ensures Cand(a, t, a.steps[t].node) == Cand(b, t, b.steps[t].node)
    ensures forall x :: Leaves(a, t, k, x) <==> Leaves(b, t, k, x)
  {
    assert a.states[t + 1] == b.states[t + 1];
    assert a.states[t] == b.states[t] && a.steps[t] == b.steps[t] && a.acts[t] == b.acts[t];
    assert a.StepAt(t) && b.StepAt(t);
  }

  lemma ExtendValid(r: Run, step: Step)
    requires r.Valid() && Enabled(Now(r), step)
    ensures var r' := Extend(r, step);
      r'.Valid() && Continues(r, r') && Now(r') == Exec(r.c, Now(r), step)
  {
    var r' := Extend(r, step);
    forall t: nat | t < |r'.steps| ensures r'.StepAt(t) {
      if t < |r.steps| { assert r.StepAt(t); }
    }
  }

  /** Nothing has left a pool yet, and every undercut so far hands k to a node proposing x. */
  ghost predicate Quiet(r: Run, x: seq<Key>, k: Key) requires r.Valid() {
    && OnlyUndercut(r, x, k)
    && (forall t, i, y :: 0 <= t < |r.steps| ==> !Leaves(r, t, i, y))
    && (forall t :: 0 <= t < |r.steps| ==> !r.steps[t].Evict?)
  }

  lemma NothingLeaves(r: Run, step: Step, i: Node, y: Key)
    requires r.Valid() && Enabled(Now(r), step) && !step.Evict?
    requires step.Tick? ==>
      var node := Now(r).nodes[step.node];
      var a := SR.Tick(node.round, node.ledger, r.c.chunk, r.c.Quorum()).outcome.action;
      !a.Sealed? && !a.Adopted?
    ensures !Leaves(Extend(r, step), |r.steps|, i, y)
  {
    hide SR.Tick;
    RunInv(r, |r.steps|);
    PoolDistinct(r, |r.steps|, step.node);
    var node := Now(r).nodes[step.node];
    if step.Tick? { TickLedger(node.round, node.ledger, r.c.chunk, r.c.Quorum()); }
  }

  lemma QuietStep(r: Run, step: Step, x: seq<Key>, k: Key)
    requires r.Valid() && Quiet(r, x, k) && Enabled(Now(r), step) && !step.Evict?
    requires step.Tick? ==>
      var node := Now(r).nodes[step.node];
      var a := SR.Tick(node.round, node.ledger, r.c.chunk, r.c.Quorum()).outcome.action;
      !a.Sealed? && !a.Adopted?
    requires step.Arrive? ==>
      var cand := CandidatePrefix(Now(r).nodes[step.node].ledger.pool, r.c.chunk, 1);
      cand == [] || (cand == x && step.key == k)
    ensures var r' := Extend(r, step);
      r'.Valid() && r'.c == r.c && Quiet(r', x, k) && Now(r') == Exec(r.c, Now(r), step)
  {
    hide SR.Tick, Leaves;
    ExtendValid(r, step);
    var r' := Extend(r, step);
    var last := |r.steps|;
    assert r'.states[last] == Now(r);
    forall t: nat | t < |r'.steps| && r'.StepAt(t) && Undercuts(r', t)
      ensures Cand(r', t, r'.steps[t].node) == x && r'.steps[t].key == k
    {
      if t < last { SamePast(r, r', t, 0, SetHash([])); }
    }
    forall t, i, y | 0 <= t < |r'.steps| ensures !Leaves(r', t, i, y) {
      if t == last { NothingLeaves(r, step, i, y); } else { SamePast(r, r', t, i, SetHash([])); }
    }
  }

  // ---- the pools: phase by phase, node by node ----

  /** Nodes below m hold pool b, the others pool a; no node has heard or resolved anything. */
  function Phase(n: nat, m: nat, a: seq<Key>, b: seq<Key>): (r: seq<NodeState>)
    ensures |r| == n
  {
    seq(n, i => NodeState(SR.NewRound(), SR.Ledger(if i < m then b else a, [])))
  }

  /** Hand node m the first |x| keys of x one by one. */
  lemma {:induction false} Fill(c: Config, n: nat, m: nat, x: seq<Key>, k: Key, r0: Run, j: nat)
      returns (r: Run, done: seq<NodeState>)
    requires c.Valid() && c.n == n && m < n && Distinct(x) && |x| == c.chunk && j <= |x|
    requires r0.Valid() && r0.c == c && Quiet(r0, x, k) && Now(r0).nodes == Phase(n, m, [], x)
    ensures r.Valid() && r.c == c && Quiet(r, x, k) && Now(r).nodes == done
    ensures |done| == n && forall i :: 0 <= i < n ==>
      done[i] == NodeState(SR.NewRound(), SR.Ledger(if i < m then x else if i == m then x[..j] else [], []))
    decreases j
  {
    if j == 0 {
      r, done := r0, Now(r0).nodes;
    } else {
      r, done := Fill(c, n, m, x, k, r0, j - 1);
      CandidateOne(x[..j - 1], c.chunk);
      assert x[j - 1] !in x[..j - 1];
      QuietStep(r, Arrive(m, x[j - 1]), x, k);
      assert x[..j - 1] + [x[j - 1]] == x[..j];
      r := Extend(r, Arrive(m, x[j - 1]));
      done := Now(r).nodes;
    }
  }

  lemma {:induction false} FillAll(c: Config, x: seq<Key>, k: Key, m: nat) returns (r: Run)
    requires c.Valid() && m <= c.n && Distinct(x) && |x| == c.chunk
    ensures r.Valid() && r.c == c && Quiet(r, x, k) && Now(r).nodes == Phase(c.n, m, [], x)
    decreases m
  {
    if m == 0 {
      r := Run(c, [Init(c)], [], []);
      assert Init(c).nodes == Phase(c.n, 0, [], x);
    } else {
      var r0 := FillAll(c, x, k, m - 1);
      var done;
      r, done := Fill(c, c.n, m - 1, x, k, r0, |x|);
      assert x[..|x|] == x;
      assert done == Phase(c.n, m, [], x);
    }
  }

  /** Alone with its own vote a node stalls and announces its candidate. */
  lemma TickAlone(l: SR.Ledger, c: nat, q: nat)
    requires c > 0 && q >= 2
    ensures var r := SR.Tick(SR.NewRound(), l, c, q); var cand := CandidatePrefix(l.pool, c, 1);
      && r.outcome.round == SR.NewRound() && r.outcome.ledger == l
      && !r.outcome.action.Sealed? && !r.outcome.action.Adopted?
      && (cand != [] ==> r.sent == [Proposal(HashOf(cand), cand)])
  {
    var cand := CandidatePrefix(l.pool, c, 1);
    if cand != [] {
      DecideMeans(Some(Proposal(HashOf(cand), cand)), [], q);
      assert SR.Vouch([], map[]) == [];
      assert Decide(Some(Proposal(HashOf(cand), cand)), SR.VotesIn([], map[]), q) == Stall;
    }
  }

  ghost predicate Announced(sys: System, i: Node, x: seq<Key>) {
    Announcement(i, Proposal(HashOf(x), x)) in sys.sent
  }

  /** The nodes below m tick; each announces its candidate. */
  lemma {:induction false} TickAll(r0: Run, x: seq<Key>, k: Key, cand: seq<Key>, pool: seq<Key>, rest: seq<Key>,
      top: nat, m: nat) returns (r: Run)
    requires r0.Valid() && r0.c.Quorum() >= 2 && m <= top <= r0.c.n
    requires Now(r0).nodes == Phase(r0.c.n, top, rest, pool)
    requires cand != [] && CandidatePrefix(pool, r0.c.chunk, 1) == cand
    ensures r.Valid() && Continues(r0, r) && Now(r).nodes == Now(r0).nodes && Now(r0).sent <= Now(r).sent
    ensures Quiet(r0, x, k) ==> Quiet(r, x, k)
    ensures forall t :: |r0.steps| <= t < |r.steps| ==> r.steps[t].Tick?
    ensures forall i :: 0 <= i < m ==> Announced(Now(r), i, cand)
    decreases m
  {
    hide SR.Tick, Quiet;
    if m == 0 {
      r := r0;
    } else {
      var r1 := TickAll(r0, x, k, cand, pool, rest, top, m - 1);
      var l := SR.Ledger(pool, []);
      TickAlone(l, r0.c.chunk, r0.c.Quorum());
      assert Now(r1).nodes[m - 1] == NodeState(SR.NewRound(), l);
      ExtendValid(r1, SealProtocol.Tick(m - 1));
      if Quiet(r1, x, k) { QuietStep(r1, SealProtocol.Tick(m - 1), x, k); }
      r := Extend(r1, SealProtocol.Tick(m - 1));
      assert Now(r).nodes == Now(r1).nodes;
      assert Proposal(HashOf(cand), cand) in SR.Tick(SR.NewRound(), l, r0.c.chunk, r0.c.Quorum()).sent;
      assert Announced(Now(r), m - 1, cand);
      forall i | 0 <= i < m ensures Announced(Now(r), i, cand) {
        if i < m - 1 { assert Announced(Now(r1), i, cand); }
      }
    }
  }

  /** The nodes below m are handed k. */
  lemma {:induction false} UndercutAll(r0: Run, x: seq<Key>, k: Key, m: nat) returns (r: Run)
    requires r0.Valid() && Quiet(r0, x, k) && m <= r0.c.n && k !in x && Now(r0).nodes == Phase(r0.c.n, r0.c.n, [], x)
    requires CandidatePrefix(x, r0.c.chunk, 1) == x
    ensures r.Valid() && r.c == r0.c && Quiet(r, x, k) && Now(r).nodes == Phase(r0.c.n, m, x, x + [k]) &&
      Now(r0).sent <= Now(r).sent
    decreases m
  {
    if m == 0 {
      r := r0;
      assert Phase(r0.c.n, r0.c.n, [], x) == Phase(r0.c.n, 0, x, x + [k]);
    } else {
      var r1 := UndercutAll(r0, x, k, m - 1);
      QuietStep(r1, Arrive(m - 1, k), x, k);
      r := Extend(r1, Arrive(m - 1, k));
      assert Now(r).nodes == Phase(r0.c.n, m, x, x + [k]);
    }
  }

  // ---- the deliveries and the two seals ----

  /** Node z has heard exactly the nodes in `heard` for cand's digest and nothing else, and resolved nothing. */
  ghost predicate Heard(s: SR.Round, cand: seq<Key>, heard: set<Node>) {
    && RoundOk(s) && s.done == {} && s.doneOrder == [] && s.doneMembers == Empty()
    && (forall h | h in s.peers.m :: h == HashOf(cand))
    && (if HashOf(cand) in s.peers.m then s.peers.m[HashOf(cand)].m.Keys == heard else heard == {})
  }

  ghost predicate HeardFrom(s: SR.Round, cand: seq<Key>, heard: set<Node>, lo: nat, m: nat) {
    lo <= m && |heard| == m - lo && Heard(s, cand, heard) && forall k | k in heard :: lo <= k < m
  }

  /** Nodes from lo up to m announce cand to node z, in turn. */
  lemma {:induction false} HearAll(r0: Run, z: Node, cand: seq<Key>, lo: nat, m: nat) returns (r: Run)
    requires r0.Valid() && z < |Now(r0).nodes| && lo <= m && !(lo <= z < m)
    requires Heard(Now(r0).nodes[z].round, cand, {})
    requires forall i :: lo <= i < m ==> Announced(Now(r0), i, cand)
    ensures r.Valid() && Continues(r0, r) && |Now(r).nodes| == |Now(r0).nodes| && Now(r0).sent <= Now(r).sent
    ensures |r.steps| == |r0.steps| + m - lo
    ensures forall t :: |r0.steps| <= t < |r.steps| ==> r.steps[t].Deliver?
    ensures exists heard: set<Node> :: HeardFrom(Now(r).nodes[z].round, cand, heard, lo, m)
    ensures Now(r).nodes[z].ledger == Now(r0).nodes[z].ledger
    ensures forall i :: 0 <= i < |Now(r).nodes| && i != z ==> Now(r).nodes[i] == Now(r0).nodes[i]
    decreases m
  {
    hide SR.Tick, Heard;
    if m == lo {
      r := r0;
      var none: set<Node> := {};
      assert HeardFrom(Now(r).nodes[z].round, cand, none, lo, m);
    } else {
      var r1 := HearAll(r0, z, cand, lo, m - 1);
      var heard: set<Node> :| HeardFrom(Now(r1).nodes[z].round, cand, heard, lo, m - 1);
      assert Announced(Now(r0), m - 1, cand);
      assert Announced(Now(r1), m - 1, cand);
      r := HearStep(r1, z, cand, heard, lo, m - 1);
      assert HeardFrom(Now(r).nodes[z].round, cand, heard + {m - 1}, lo, m);
    }
  }

  lemma HearStep(r0: Run, z: Node, cand: seq<Key>, heard: set<Node>, lo: nat, j: Node) returns (r: Run)
    requires r0.Valid() && z < |Now(r0).nodes| && j != z && Announced(Now(r0), j, cand)
    requires HeardFrom(Now(r0).nodes[z].round, cand, heard, lo, j)
    ensures r.Valid() && Continues(r0, r) && |Now(r).nodes| == |Now(r0).nodes| && Now(r0).sent <= Now(r).sent
    ensures |r.steps| == |r0.steps| + 1 && r.steps[|r0.steps|].Deliver?
    ensures HeardFrom(Now(r).nodes[z].round, cand, heard + {j}, lo, j + 1)
    ensures Now(r).nodes[z].ledger == Now(r0).nodes[z].ledger
    ensures forall i :: 0 <= i < |Now(r).nodes| && i != z ==> Now(r).nodes[i] == Now(r0).nodes[i]
  {
    hide SR.Tick, SR.OnPeer, HashOf;
    var a := Announcement(j, Proposal(HashOf(cand), cand));
    ExtendValid(r0, Deliver(z, a));
    r := Extend(r0, Deliver(z, a));
    HearOne(Now(r0).nodes[z].round, cand, heard, j);
    assert Now(r).nodes[z].round == SR.OnPeer(Now(r0).nodes[z].round, Vote(j, a.proposal)).0;
  }

  lemma HearOne(s: SR.Round, cand: seq<Key>, heard: set<Node>, j: Node)
    requires Heard(s, cand, heard) && j !in heard
    ensures Heard(SR.OnPeer(s, Vote(j, Proposal(HashOf(cand), cand))).0, cand, heard + {j})
  {
  }

  /** A node that heard enough others seals its candidate. */
  lemma SealsOnHearing(s: SR.Round, l: SR.Ledger, c: nat, q: nat, heard: set<Node>)
    requires c > 0 && q > 0
    requires var cand := CandidatePrefix(l.pool, c, 1); cand != [] && Heard(s, cand, heard)
    requires |heard| + 1 >= q
    ensures SR.Tick(s, l, c, q).outcome.action == SR.Sealed(HashOf(CandidatePrefix(l.pool, c, 1)))
  {
    var h := HashOf(CandidatePrefix(l.pool, c, 1));
    if h in s.peers.m { assert |s.peers.m[h].m| == |s.peers.m[h].m.Keys|; }
    SealsWhenBacked(s, l, c, q);
  }

  // ---- the split ----

  /** Undercutting drops the top key of the candidate and takes the new one in. */
  lemma UndercutCandidate(x: seq<Key>, c: nat, k: Key) returns (y: seq<Key>)
    requires c >= 2 && |x| == c && Sorted(x) && Distinct(x) && k !in x && k < x[c - 1]
    ensures y == CandidatePrefix(x + [k], c, 1) && |y| == c && CandidatePrefix(x, c, 1) == x
    ensures HashOf(x) != HashOf(y) && !Disjoint(HashOf(x).keys, HashOf(y).keys)
  {
    CandidateOne(x, c);
    SortOfSorted(x);
    assert x[..c] == x;
    var low := x[..c - 1] + [k];
    y := Sort(low);
    LowCandidate(x, c, k, low);
    SortElements(low);
    SortElements(x);
    SortElements(y);
    assert low[c - 1] == k && low[0] == x[0];
    assert k in Sort(y) && k !in Sort(x);
    assert x[0] in HashOf(x).keys && x[0] in HashOf(y).keys;
  }

  lemma LowCandidate(x: seq<Key>, c: nat, k: Key, low: seq<Key>)
    requires c >= 2 && |x| == c && Sorted(x) && Distinct(x) && k !in x && k < x[c - 1] && low == x[..c - 1] + [k]
    ensures |Sort(low)| == c && CandidatePrefix(x + [k], c, 1) == Sort(low)
  {
    var y := Sort(low);
    SortSorts(low);
    SortElements(low);
    assert Distinct(low);
    SortDistinct(low);
    assert x == x[..c - 1] + [x[c - 1]];
    assert forall z | z in x[..c - 1] :: z in x && z <= x[c - 1];
    assert x[c - 1] !in x[..c - 1];
    assert y[c - 1] in low;
    assert y[c - 1] < x[c - 1];
    CandidateUnique(x + [k], c, y);
  }

  /** A continuation of a quiet run that hands out nothing more keeps both premises on its arrivals. */
  lemma QuietContinues(a: Run, b: Run, x: seq<Key>, k: Key)
    requires a.Valid() && b.Valid() && Continues(a, b) && Quiet(a, x, k)
    requires forall t :: |a.steps| <= t < |b.steps| ==> !b.steps[t].Arrive?
    ensures NoReturn(b) && OnlyUndercut(b, x, k)
  {
    hide SR.Tick, Leaves;
    forall t: nat | t < |b.steps| && b.StepAt(t) && Undercuts(b, t)
      ensures Cand(b, t, b.steps[t].node) == x && b.steps[t].key == k
    {
      if t < |a.steps| { SamePast(a, b, t, 0, SetHash([])); }
    }
    forall s: nat, t: nat | s < t < |b.steps| && b.steps[t].Arrive?
      ensures !Leaves(b, s, b.steps[t].node, b.steps[t].key)
    {
      SamePast(a, b, s, b.steps[t].node, SetHash([]));
    }
  }

  /** Node z hears cand from the nodes lo up to m and seals it. */
  lemma HearAndSeal(r0: Run, z: Node, cand: seq<Key>, lo: nat, m: nat) returns (r: Run)
    requires r0.Valid() && z < r0.c.n && z < |Now(r0).nodes| && lo <= m && !(lo <= z < m)
    requires Now(r0).nodes[z].round == SR.NewRound()
    requires cand != [] && CandidatePrefix(Now(r0).nodes[z].ledger.pool, r0.c.chunk, 1) == cand
    requires forall i :: lo <= i < m ==> Announced(Now(r0), i, cand)
    requires m - lo + 1 >= r0.c.Quorum()
    ensures r.Valid() && Continues(r0, r) && |Now(r).nodes| == |Now(r0).nodes| && Now(r0).sent <= Now(r).sent
    ensures |r.steps| > |r0.steps| && Resolves(r, |r.steps| - 1, z, HashOf(cand))
    ensures forall t :: |r0.steps| <= t < |r.steps| ==> r.steps[t].Deliver? || r.steps[t].Tick?
    ensures forall i :: 0 <= i < |Now(r).nodes| && i != z ==> Now(r).nodes[i] == Now(r0).nodes[i]
  {
    hide SR.Tick;
    var r1 := HearAll(r0, z, cand, lo, m);
    var heard: set<Node> :| HeardFrom(Now(r1).nodes[z].round, cand, heard, lo, m);
    r := SealStep(r1, z, cand, heard);
  }

  lemma SealStep(r0: Run, z: Node, cand: seq<Key>, heard: set<Node>) returns (r: Run)
    requires r0.Valid() && z < r0.c.n && z < |Now(r0).nodes| && Heard(Now(r0).nodes[z].round, cand, heard)
    requires cand != [] && CandidatePrefix(Now(r0).nodes[z].ledger.pool, r0.c.chunk, 1) == cand
    requires |heard| + 1 >= r0.c.Quorum()
    ensures r.Valid() && Continues(r0, r) && |Now(r).nodes| == |Now(r0).nodes| && Now(r0).sent <= Now(r).sent
    ensures r.steps == r0.steps + [SealProtocol.Tick(z)] && Resolves(r, |r.steps| - 1, z, HashOf(cand))
    ensures forall i :: 0 <= i < |Now(r).nodes| && i != z ==> Now(r).nodes[i] == Now(r0).nodes[i]
  {
    hide SR.Tick;
    var node := Now(r0).nodes[z];
    SealsOnHearing(node.round, node.ledger, r0.c.chunk, r0.c.Quorum(), heard);
    ExtendValid(r0, SealProtocol.Tick(z));
    r := Extend(r0, SealProtocol.Tick(z));
    assert r.states[|r.steps| - 1] == Now(r0);
    assert TickAt(r, |r.steps| - 1) == SR.Tick(node.round, node.ledger, r0.c.chunk, r0.c.Quorum());
  }

  /** Every lead but the last has announced x, then moved from pool p to pool q and announced y. */
  ghost predicate Prepared(r: Run, p: seq<Key>, q: seq<Key>, x: seq<Key>, y: seq<Key>) {
    && r.Valid() && r.c.n >= 3 && x != [] && y != []
    && CandidatePrefix(p, r.c.chunk, 1) == x && CandidatePrefix(q, r.c.chunk, 1) == y
    && Now(r).nodes == Phase(r.c.n, r.c.n - 1, p, q)
    && forall i :: 0 <= i < r.c.n - 1 ==> Announced(Now(r), i, x) && Announced(Now(r), i, y)
  }

  /** Then the last lead hears the votes for x and seals it, and the first hears the votes for y and seals that. */
  lemma SealBoth(r0: Run, p: seq<Key>, q: seq<Key>, x: seq<Key>, y: seq<Key>) returns (r: Run)
    requires Prepared(r0, p, q, x, y) && HashOf(x) != HashOf(y) && !Disjoint(HashOf(x).keys, HashOf(y).keys)
    ensures r.Valid() && Continues(r0, r) && SplitBrain(r)
    ensures forall t :: |r0.steps| <= t < |r.steps| ==> r.steps[t].Deliver? || r.steps[t].Tick?
  {
    hide SR.Tick, Run.Valid, Resolves, Announced;
    var n := r0.c.n;
    var r1 := HearAndSeal(r0, n - 1, x, 0, n - 1);
    r := SealOther(r0, r1, q, y);
    SamePast(r1, r, |r1.steps| - 1, n - 1, HashOf(x));
    assert Overlap(r, |r1.steps| - 1, n - 1, HashOf(x), |r.steps| - 1, 0, HashOf(y));
  }

  lemma SealOther(r0: Run, r1: Run, q: seq<Key>, y: seq<Key>) returns (r2: Run)
    requires r0.Valid() && r1.Valid() && Continues(r0, r1) && r0.c.n >= 3 &&
      |Now(r1).nodes| == |Now(r0).nodes| == r0.c.n
    requires Now(r0).nodes[0] == NodeState(SR.NewRound(), SR.Ledger(q, [])) && Now(r1).nodes[0] == Now(r0).nodes[0]
    requires y != [] && y == CandidatePrefix(q, r0.c.chunk, 1) && Now(r0).sent <= Now(r1).sent
    requires forall i :: 0 <= i < r0.c.n - 1 ==> Announced(Now(r0), i, y)
    requires forall t :: |r0.steps| <= t < |r1.steps| ==> r1.steps[t].Deliver? || r1.steps[t].Tick?
    ensures r2.Valid() && Continues(r0, r2) && Continues(r1, r2)
    ensures |r2.steps| > |r1.steps| && Resolves(r2, |r2.steps| - 1, 0, HashOf(y))
    ensures forall t :: |r0.steps| <= t < |r2.steps| ==> r2.steps[t].Deliver? || r2.steps[t].Tick?
  {
    hide SR.Tick;
    forall i | 1 <= i < r0.c.n - 1 ensures Announced(Now(r1), i, y) { assert Announced(Now(r0), i, y); }
    r2 := HearAndSeal(r1, 0, y, 1, r0.c.n - 1);
  }

  // ---- undercutting splits ----

  /** Every lead proposes x; all but the last are handed k and propose y. */
  lemma PrepareUndercut(c: Config, x: seq<Key>, k: Key, y: seq<Key>) returns (r: Run)
    requires c.n >= 3 && c.chunk >= 2 && |x| == |y| == c.chunk && Distinct(x) && k !in x
    requires y == CandidatePrefix(x + [k], c.chunk, 1) && CandidatePrefix(x, c.chunk, 1) == x
    ensures r.c == c && Prepared(r, x, x + [k], x, y) && Quiet(r, x, k)
  {
    hide SR.Tick, Quiet;
    var n := c.n;
    var r1 := FillAll(c, x, k, n);
    var r2 := TickAll(r1, x, k, x, x, [], n, n);
    var r3 := UndercutAll(r2, x, k, n - 1);
    r := TickAll(r3, x, k, y, x + [k], x, n - 1, n - 1);
    forall i | 0 <= i < n - 1 ensures Announced(Now(r), i, x) { assert Announced(Now(r2), i, x); }
  }

  lemma SplitRun(c: Config, x: seq<Key>, k: Key)
    requires c.n >= 3 && c.chunk >= 2 && |x| == c.chunk && Sorted(x) && Distinct(x) && k !in x && k < x[c.chunk - 1]
    ensures CanSplit(c, x, k)
  {
    hide SR.Tick, Run.Valid, Resolves, NoReturn, OnlyUndercut, SplitBrain;
    var y := UndercutCandidate(x, c.chunk, k);
    var r0 := PrepareUndercut(c, x, k, y);
    var r := SealBoth(r0, x, x + [k], x, y);
    QuietContinues(r0, r, x, k);
    assert EvictsResolved(r);
  }

  lemma NothingBelow(r: Run, x: seq<Key>, k: Key)
    requires r.Valid() && OnlyUndercut(r, x, k) && x != [] && k >= x[|x| - 1]
    ensures NoUndercut(r)
  {
    forall t: nat | t < |r.steps| && r.StepAt(t) ensures !Undercuts(r, t) { }
  }

  /** The premise on arrivals is exact: a run whose only undercutting arrivals hand k to nodes proposing x can split
      if and only if there are three leads or more, sets of two keys or more, and k lies below the top key of x. */
  lemma SplitIffUndercut(c: Config, x: seq<Key>, k: Key)
    requires c.Valid() && |x| == c.chunk && Sorted(x) && Distinct(x) && k !in x
    ensures CanSplit(c, x, k) <==> c.n >= 3 && c.chunk >= 2 && k < x[c.chunk - 1]
  {
    hide SR.Tick, Run.Valid;
    if c.n >= 3 && c.chunk >= 2 && k < x[c.chunk - 1] {
      SplitRun(c, x, k);
    } else if CanSplit(c, x, k) {
      var r: Run :| r.Valid() && r.c == c && NoReturn(r) && EvictsResolved(r) && OnlyUndercut(r, x, k) && SplitBrain(r);
      if k >= x[c.chunk - 1] { NothingBelow(r, x, k); }
      var t, i, g, u, j, h :| Overlap(r, t, i, g, u, j, h);
      NoSplitBrain(r, t, i, g, u, j, h);
    }
  }

  // ---- evicting what nobody resolved splits ----

  /** The nodes below m drop `gone` from their pools. */
  lemma {:induction false} EvictAll(r0: Run, p: seq<Key>, gone: seq<Key>, m: nat) returns (r: Run)
    requires r0.Valid() && m <= r0.c.n && Now(r0).nodes == Phase(r0.c.n, r0.c.n, [], p)
    ensures r.Valid() && Continues(r0, r) && Now(r).nodes == Phase(r0.c.n, m, p, Without(p, gone))
    ensures Now(r0).sent <= Now(r).sent
    ensures forall t :: |r0.steps| <= t < |r.steps| ==> r.steps[t].Evict? && r.steps[t].keys == gone
    decreases m
  {
    if m == 0 {
      r := r0;
      assert Phase(r0.c.n, r0.c.n, [], p) == Phase(r0.c.n, 0, p, Without(p, gone));
    } else {
      var r1 := EvictAll(r0, p, gone, m - 1);
      ExtendValid(r1, Evict(m - 1, gone));
      r := Extend(r1, Evict(m - 1, gone));
      assert Now(r).nodes == Phase(r0.c.n, m, p, Without(p, gone));
    }
  }

  /** Dropping the least key of a pool of one chunk and one key more moves the candidate up by one. */
  lemma EvictedCandidate(x: seq<Key>, c: nat, z: Key) returns (y: seq<Key>)
    requires c >= 2 && |x| == c && Sorted(x) && Distinct(x) && z > x[c - 1]
    ensures CandidatePrefix(x + [z], c, 1) == x && y != [] && CandidatePrefix(Without(x + [z], [x[0]]), c, 1) == y
    ensures HashOf(x) != HashOf(y) && !Disjoint(HashOf(x).keys, HashOf(y).keys)
  {
    var p := x + [z];
    CandidateUnique(p, c, x);
    y := x[1..] + [z];
    WithoutElements(p, [x[0]]);
    CandidateUnique(Without(p, [x[0]]), c, y);
    SortOfSorted(x);
    SortOfSorted(y);
    assert x[1] == y[0] && x[1] in x && y[0] in y;
  }

  /** Some run that hands out nothing early or twice and evicts nothing but the key e splits. */
  ghost predicate CanSplitEvicting(c: Config, e: Key) {
    exists r: Run :: r.Valid() && r.c == c && NoUndercut(r) && NoReturn(r) && EvictsOnly(r, e) && SplitBrain(r)
  }

  ghost predicate EvictsOnly(r: Run, e: Key) {
    forall t :: 0 <= t < |r.steps| && r.steps[t].Evict? ==> r.steps[t].keys == [e]
  }

  /** The premise on evictions is needed: with three leads or more and sets of two or more, dropping one unresolved key
      that some leads have voted for is enough, whichever set it is the least key of. */
  lemma StrayEvictionSplits(c: Config, x: seq<Key>)
    requires c.n >= 3 && c.chunk >= 2 && |x| == c.chunk && Sorted(x) && Distinct(x)
    ensures CanSplitEvicting(c, x[0])
  {
    hide SR.Tick, Run.Valid, NoReturn, OnlyUndercut, NoUndercut, SplitBrain, Quiet;
    var z := x[c.chunk - 1] + 1;
    var y := EvictedCandidate(x, c.chunk, z);
    var r0 := HoldBoth(c, x, z);
    var r1 := DropLeast(r0, x, z, y);
    var r := SealBoth(r1, x + [z], Without(x + [z], [x[0]]), x, y);
    QuietContinues(r0, r, x, z);
    NothingBelow(r, x, z);
    QuietEvicts(r0, r, x, z);
  }

  lemma QuietEvicts(a: Run, b: Run, x: seq<Key>, z: Key)
    requires a.Valid() && Quiet(a, x, z) && a.steps <= b.steps && x != []
    requires forall t :: |a.steps| <= t < |b.steps| && b.steps[t].Evict? ==> b.steps[t].keys == [x[0]]
    ensures EvictsOnly(b, x[0])
  {
  }

  /** A pool of one chunk is its own candidate. */
  lemma WholeCandidate(x: seq<Key>, c: nat)
    requires c > 0 && |x| == c && Sorted(x)
    ensures CandidatePrefix(x, c, 1) == x && Sort(x) == x
  {
    CandidateOne(x, c);
    SortOfSorted(x);
    assert x[..c] == x;
  }

  /** Every lead holds x and z and announces x. */
  lemma HoldBoth(c: Config, x: seq<Key>, z: Key) returns (r: Run)
    requires c.n >= 3 && c.chunk >= 2 && |x| == c.chunk && Sorted(x) && Distinct(x) && z > x[c.chunk - 1]
    requires CandidatePrefix(x + [z], c.chunk, 1) == x
    ensures r.Valid() && r.c == c && Quiet(r, x, z) && Now(r).nodes == Phase(c.n, c.n, [], x + [z])
    ensures forall i :: 0 <= i < c.n ==> Announced(Now(r), i, x)
  {
    hide SR.Tick, Quiet, Announced, CandidatePrefix, Run.Valid;
    WholeCandidate(x, c.chunk);
    var r1 := FillAll(c, x, z, c.n);
    var r2 := UndercutAll(r1, x, z, c.n);
    assert Phase(c.n, c.n, x, x + [z]) == Phase(c.n, c.n, [], x + [z]);
    r := TickAll(r2, x, z, x, x + [z], [], c.n, c.n);
  }

  /** Then all but the last drop the least key of x and announce y. */
  lemma DropLeast(r0: Run, x: seq<Key>, z: Key, y: seq<Key>) returns (r: Run)
    requires r0.Valid() && r0.c.n >= 3 && x != [] && y != [] && Now(r0).nodes == Phase(r0.c.n, r0.c.n, [], x + [z])
    requires CandidatePrefix(x + [z], r0.c.chunk, 1) == x
    requires CandidatePrefix(Without(x + [z], [x[0]]), r0.c.chunk, 1) == y
    requires forall i :: 0 <= i < r0.c.n ==> Announced(Now(r0), i, x)
    ensures Continues(r0, r) && Prepared(r, x + [z], Without(x + [z], [x[0]]), x, y)
    ensures forall t :: |r0.steps| <= t < |r.steps| ==>
      !r.steps[t].Arrive? && (r.steps[t].Evict? ==> r.steps[t].keys == [x[0]])
  {
    hide SR.Tick, Quiet, CandidatePrefix;
    var n, p, q := r0.c.n, x + [z], Without(x + [z], [x[0]]);
    var r1 := EvictAll(r0, p, [x[0]], n - 1);
    r := TickAll(r1, x, z, y, q, p, n - 1, n - 1);
    forall i | 0 <= i < n - 1 ensures Announced(Now(r), i, x) { assert Announced(Now(r0), i, x); }
  }

  // ---- keys that come back split ----

  /** Some run that hands out nothing early and evicts nothing unresolved splits. */
  ghost predicate CanSplitReturning(c: Config) {
    exists r: Run :: r.Valid() && r.c == c && NoUndercut(r) && EvictsResolved(r) && SplitBrain(r)
  }

  /** A lone lead that is handed nothing early, evicts nothing, and has resolved only sets in `past`. */
  ghost predicate Solo(r: Run, pool: seq<Key>, past: set<SetHash>) {
    && r.Valid() && r.c.n == 1 && NoUndercut(r) && (forall t :: 0 <= t < |r.steps| ==> !r.steps[t].Evict?)
    && |Now(r).nodes| == 1
    && var node := Now(r).nodes[0];
      && node.ledger.pool == pool && RoundOk(node.round) && node.round.peers.m == map[]
      && forall h :: h in node.round.done || h in node.round.doneMembers.m ==> h in past
  }

  /** One step more keeps the premises, when an arrival finds less than a chunk pooled. */
  lemma CalmStep(r: Run, step: Step)
    requires r.Valid() && NoUndercut(r) && Enabled(Now(r), step)
    requires step.Arrive? ==> |Now(r).nodes[step.node].ledger.pool| < r.c.chunk
    ensures var r' := Extend(r, step);
      r'.Valid() && NoUndercut(r') && Continues(r, r') && Now(r') == Exec(r.c, Now(r), step)
  {
    hide SR.Tick;
    ExtendValid(r, step);
    var r' := Extend(r, step);
    if step.Arrive? { CandidateOne(Now(r).nodes[step.node].ledger.pool, r.c.chunk); }
    forall t: nat | t < |r'.steps| && r'.StepAt(t) ensures !Undercuts(r', t) {
      if t < |r.steps| { SamePast(r, r', t, 0, SetHash([])); } else { assert r'.states[t] == Now(r); }
    }
  }

  lemma {:induction false} Refill(r0: Run, y: seq<Key>, past: set<SetHash>, j: nat) returns (r: Run)
    requires Solo(r0, [], past) && Distinct(y) && |y| == r0.c.chunk && j <= |y|
    ensures Solo(r, y[..j], past) && Continues(r0, r)
    decreases j
  {
    hide SR.Tick, NoUndercut;
    if j == 0 {
      r := r0;
    } else {
      var r1 := Refill(r0, y, past, j - 1);
      CalmStep(r1, Arrive(0, y[j - 1]));
      assert y[j - 1] !in y[..j - 1];
      assert y[..j - 1] + [y[j - 1]] == y[..j];
      r := Extend(r1, Arrive(0, y[j - 1]));
    }
  }

  /** With a quorum of one, a tick seals the whole chunk. */
  lemma SoloTick(node: NodeState, y: seq<Key>, c: nat)
    requires c > 0 && RoundOk(node.round) && node.round.peers.m == map[] && node.ledger.pool == y
    requires Sorted(y) && Distinct(y) && |y| == c && HashOf(y) !in node.round.done
    ensures var o := SR.Tick(node.round, node.ledger, c, 1).outcome;
      && o.action == SR.Sealed(HashOf(y)) && o.ledger.pool == [] && RoundOk(o.round) && o.round.peers.m == map[]
      && forall h | h in o.round.doneMembers.m || h in o.round.done ::
           h in node.round.doneMembers.m || h in node.round.done || h == HashOf(y)
  {
    hide SR.Tick, CandidatePrefix;
    WholeCandidate(y, c);
    SealsWhenBacked(node.round, node.ledger, c, 1);
    TickLedger(node.round, node.ledger, c, 1);
    TickRound(node.round, node.ledger, c, 1);
    KeepNone(y, k => k !in HashOf(y).keys);
  }

  /** A lone lead seals a full chunk it has not resolved. */
  lemma SoloSeal(r0: Run, y: seq<Key>, past: set<SetHash>) returns (r: Run)
    requires Solo(r0, y, past) && Sorted(y) && Distinct(y) && |y| == r0.c.chunk && HashOf(y) !in past
    ensures Solo(r, [], past + {HashOf(y)}) && Continues(r0, r)
    ensures |r.steps| == |r0.steps| + 1 && Resolves(r, |r0.steps|, 0, HashOf(y))
  {
    hide SR.Tick, NoUndercut, HashOf;
    SoloTick(Now(r0).nodes[0], y, r0.c.chunk);
    CalmStep(r0, SealProtocol.Tick(0));
    r := Extend(r0, SealProtocol.Tick(0));
    assert r.states[|r0.steps|] == Now(r0);
  }

  lemma SoloStart(c: Config) returns (r: Run)
    requires c.Valid() && c.n == 1
    ensures r.c == c && Solo(r, [], {})
  {
    r := Run(c, [Init(c)], [], []);
  }

  /** Seal x, take back one of its keys with new ones above, seal again. */
  lemma ReturnRun(c: Config, x: seq<Key>, y: seq<Key>)
    requires c.Valid() && c.n == 1 && |x| == |y| == c.chunk && Sorted(x) && Distinct(x) && Sorted(y) && Distinct(y)
    requires HashOf(x) != HashOf(y) && !Disjoint(HashOf(x).keys, HashOf(y).keys)
    ensures CanSplitReturning(c)
  {
    hide SR.Tick, Run.Valid, NoUndercut, Resolves, HashOf, Disjoint;
    assert x[..|x|] == x && y[..|y|] == y;
    var r0 := SoloStart(c);
    var r1 := Refill(r0, x, {}, |x|);
    var r2 := SoloSeal(r1, x, {});
    var r3 := Refill(r2, y, {HashOf(x)}, |y|);
    var r := SoloSeal(r3, y, {HashOf(x)});
    SamePast(r2, r, |r1.steps|, 0, HashOf(x));
    assert Overlap(r, |r1.steps|, 0, HashOf(x), |r3.steps|, 0, HashOf(y));
    assert EvictsResolved(r);
  }

  /** The premise on returning keys is needed: a lone lead handed a resolved key again can split with itself, exactly
      when its sets hold more than that key. */
  lemma SplitIffReturns(c: Config)
    requires c.Valid() && c.n == 1
    ensures CanSplitReturning(c) <==> c.chunk >= 2
  {
    hide SR.Tick, Run.Valid, NoUndercut, SplitBrain;
    if c.chunk >= 2 {
      var x, y := FirstAndSecond(c.chunk);
      ReturnRun(c, x, y);
    } else {
      forall r: Run | r.Valid() && r.c == c ensures !SplitBrain(r) { OneKeyNeverSplits(r); }
    }
  }

  /** Two different sets of m keys that share the key 0. */
  lemma FirstAndSecond(m: nat) returns (x: seq<Key>, y: seq<Key>)
    requires m >= 2
    ensures |x| == |y| == m && Sorted(x) && Distinct(x) && Sorted(y) && Distinct(y)
    ensures HashOf(x) != HashOf(y) && !Disjoint(HashOf(x).keys, HashOf(y).keys)
  {
    x := seq(m, i => i);
    y := seq(m, i => if i == 0 then 0 else m + i);
    SortOfSorted(x);
    SortOfSorted(y);
    assert y[1] != x[1] && y[0] == x[0] && x[0] in x && y[0] in y;
  }

  lemma OneKeyNeverSplits(r: Run)
    requires r.Valid() && r.c.chunk == 1
    ensures !SplitBrain(r)
  {
    hide SR.Tick, Run.Valid;
    if SplitBrain(r) {
      var t, i, g, u, j, h :| Overlap(r, t, i, g, u, j, h);
      ResolvedSize(r, t, i, g);
      ResolvedSize(r, u, j, h);
      OneKeySets(g, h);
    }
  }
}
