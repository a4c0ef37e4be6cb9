/** Leads that start from equal pools and are handed nothing more. However their ticks and deliveries interleave, and
    whatever the gossip loses, repeats or reorders, every set any of them resolves is a chunk of the sorted pool. */
module SealInterleaving {
  import opened Ordering
  import opened JsMap
  import opened SealAgreement
  import SR = SealRound
  import opened SealProtocol
  import opened SealSafety
  import opened SealRefinement

  /** Ticks and deliveries in any order from equal pools, nothing announced yet. */
  datatype Settling = Settling(c: Config, pool: seq<Key>, states: seq<System>, steps: seq<Step>) {
    ghost predicate Valid() {
      && |states| == |steps| + 1 && Start(c, states[0], pool) && states[0].sent == {}
      && forall t :: 0 <= t < |steps| ==> StepAt(t)
    }

    ghost predicate StepAt(t: nat) requires c.chunk > 0 && t < |steps| && |states| == |steps| + 1 {
      && Enabled(states[t], steps[t]) && (steps[t].Deliver? || steps[t].Tick?)
      && states[t + 1] == Exec(c, states[t], steps[t])
    }
  }

  /** h is the digest of a chunk of s. */
  ghost predicate OfChunk(c: nat, s: seq<Key>, h: SetHash) requires c > 0 {
    h.keys in Chunks(s, c)
  }

  /** A chunk is sealed and gone from the pool, or not sealed and all there. */
  ghost predicate SealedOrPooled(l: SR.Ledger, chunk: seq<Key>) {
    if chunk in l.faces then Disjoint(chunk, l.pool) else forall k | k in chunk :: k in l.pool
  }

  ghost predicate LedgerOk(c: nat, s: seq<Key>, l: SR.Ledger) requires c > 0 {
    && Distinct(l.pool) && Distinct(l.faces)
    && (forall k | k in l.pool :: k in s)
    && (forall f | f in l.faces :: f in Chunks(s, c))
    && (forall f | f in Chunks(s, c) :: SealedOrPooled(l, f))
    && (forall k | k in s :: k in l.pool || exists f :: f in Chunks(s, c) && k in f)
  }

  ghost predicate RoundNames(c: nat, s: seq<Key>, r: SR.Round) requires c > 0 {
    && RoundOk(r)
    && forall h :: h in r.peers.m || h in r.doneMembers.m || h in r.done ==> OfChunk(c, s, h)
  }

  ghost predicate SystemOk(c: Config, s: seq<Key>, sys: System) requires c.chunk > 0 {
    && |sys.nodes| == c.n
    && (forall i :: 0 <= i < c.n ==>
      LedgerOk(c.chunk, s, sys.nodes[i].ledger) && RoundNames(c.chunk, s, sys.nodes[i].round))
    && (forall a :: a in sys.sent ==> OfChunk(c.chunk, s, a.proposal.setHash))
  }

  // ---- chunks of a sorted pool ----

  lemma ChunkFacts(s: seq<Key>, c: nat, m: nat)
    requires c > 0 && Sorted(s) && Distinct(s) && m < |Chunks(s, c)|
    ensures m * c + c <= |s| && Chunks(s, c)[m] == s[m * c..m * c + c]
    ensures Sorted(Chunks(s, c)[m]) && Distinct(Chunks(s, c)[m]) && HashOf(Chunks(s, c)[m]).keys == Chunks(s, c)[m]
  {
    hide Chunks;
    ChunkAt(s, c, m);
    SortOfSorted(s[m * c..m * c + c]);
  }

  /** A place before the first m chunks end lies in one of them. */
  lemma {:induction false} ChunkOf(s: seq<Key>, c: nat, m: nat, p: nat) returns (j: nat)
    requires c > 0 && m <= |Chunks(s, c)| && p < m * c && p < |s|
    ensures j < m && s[p] in Chunks(s, c)[j]
  {
    MulPlusOne(c, m - 1);
    ChunkAt(s, c, m - 1);
    if (m - 1) * c <= p {
      j := m - 1;
      assert Chunks(s, c)[j][p - j * c] == s[p];
    } else {
      j := ChunkOf(s, c, m - 1, p);
    }
  }

  lemma InSlice(s: seq<Key>, a: nat, b: nat, p: nat)
    requires a <= p < b <= |s|
    ensures s[p] in s[a..b]
  {
    assert s[a..b][p - a] == s[p];
  }

  lemma Gone(c: nat, s: seq<Key>, l: SR.Ledger, f: seq<Key>, k: Key)
    requires c > 0 && LedgerOk(c, s, l) && f in l.faces && k in f
    ensures k !in l.pool
  {
    assert SealedOrPooled(l, f);
  }

  /** With the first m chunks sealed, the pool holds only later keys. */
  lemma PooledLater(c: nat, s: seq<Key>, l: SR.Ledger, m: nat, p: nat)
    requires c > 0 && LedgerOk(c, s, l) && m <= |Chunks(s, c)| && p < |s| && s[p] in l.pool
    requires forall j :: 0 <= j < m ==> Chunks(s, c)[j] in l.faces
    ensures p >= m * c
  {
    if p < m * c {
      var j := ChunkOf(s, c, m, p);
      Gone(c, s, l, Chunks(s, c)[j], s[p]);
    }
  }

  // ---- the candidate ----

  /** A pooled key outside the lowest chunk still pooled lies above it. */
  lemma AboveLowest(c: nat, s: seq<Key>, l: SR.Ledger, m: nat, x: seq<Key>, k: Key)
    requires c > 0 && Sorted(s) && Distinct(s) && LedgerOk(c, s, l) && m < |Chunks(s, c)| && x == Chunks(s, c)[m]
    requires forall j :: 0 <= j < m ==> Chunks(s, c)[j] in l.faces
    requires k in l.pool && k !in x
    ensures x[c - 1] < k
  {
    hide Chunks, SealedOrPooled;
    ChunkFacts(s, c, m);
    forall q | m * c <= q < m * c + c ensures s[q] in x { InSlice(s, m * c, m * c + c, q); }
    var p :| 0 <= p < |s| && s[p] == k;
    PooledLater(c, s, l, m, p);
    assert p >= m * c + c;
    assert x[c - 1] == s[m * c + (c - 1)];
  }

  /** Above the lowest chunk still pooled lies everything else in the pool. */
  lemma LowestChunk(c: nat, s: seq<Key>, l: SR.Ledger, m: nat)
    requires c > 0 && Sorted(s) && Distinct(s) && LedgerOk(c, s, l) && m < |Chunks(s, c)|
    requires Chunks(s, c)[m] !in l.faces && forall j :: 0 <= j < m ==> Chunks(s, c)[j] in l.faces
    ensures CandidatePrefix(l.pool, c, 1) == Chunks(s, c)[m]
  {
    hide CandidatePrefix, Chunks;
    var x := Chunks(s, c)[m];
    ChunkFacts(s, c, m);
    assert x in Chunks(s, c);
    assert SealedOrPooled(l, x);
    forall k | k in l.pool && k !in x ensures x[c - 1] < k { AboveLowest(c, s, l, m, x, k); }
    CandidateUnique(l.pool, c, x);
  }

  /** With every chunk sealed less than a chunk is left. */
  lemma NothingLeft(c: nat, s: seq<Key>, l: SR.Ledger)
    requires c > 0 && Sorted(s) && Distinct(s) && LedgerOk(c, s, l) && forall f | f in Chunks(s, c) :: f in l.faces
    ensures CandidatePrefix(l.pool, c, 1) == []
  {
    hide Chunks;
    var n := |Chunks(s, c)|;
    ChunkBounds(s, c, n);
    var rest := s[n * c..];
    forall k | k in Elements(l.pool) ensures k in Elements(rest) {
      var p :| 0 <= p < |s| && s[p] == k;
      PooledLater(c, s, l, n, p);
      assert rest[p - n * c] == k;
    }
    DistinctMultiset(l.pool);
    DistinctMultiset(rest);
    SubsetSize(Elements(l.pool), Elements(rest));
    CandidateOne(l.pool, c);
  }

  /** The lowest chunk still pooled, if any. */
  lemma CandidateIsChunk(c: nat, s: seq<Key>, l: SR.Ledger)
    requires c > 0 && Sorted(s) && Distinct(s) && LedgerOk(c, s, l)
    ensures var x := CandidatePrefix(l.pool, c, 1); x == [] || (x in Chunks(s, c) && HashOf(x).keys == x)
  {
    hide CandidatePrefix, Chunks, HashOf;
    var m := 0;
    while m < |Chunks(s, c)| && Chunks(s, c)[m] in l.faces
      invariant m <= |Chunks(s, c)| && forall j :: 0 <= j < m ==> Chunks(s, c)[j] in l.faces
    {
      m := m + 1;
    }
    if m < |Chunks(s, c)| {
      LowestChunk(c, s, l, m);
      ChunkFacts(s, c, m);
    } else {
      NothingLeft(c, s, l);
    }
  }

  // ---- steps ----

  lemma OtherChunk(s: seq<Key>, c: nat, x: seq<Key>, f: seq<Key>)
    requires c > 0 && Distinct(s) && x in Chunks(s, c) && f in Chunks(s, c) && f != x
    ensures Disjoint(f, x)
  {
    hide Chunks;
    var i :| 0 <= i < |Chunks(s, c)| && Chunks(s, c)[i] == x;
    var j :| 0 <= j < |Chunks(s, c)| && Chunks(s, c)[j] == f;
    if i < j { ChunksDisjoint(s, c, i, j); } else { ChunksDisjoint(s, c, j, i); }
  }

  /** Taking a pooled chunk out of the pool and onto the faces. */
  lemma SealChunk(c: nat, s: seq<Key>, l: SR.Ledger, x: seq<Key>)
    requires c > 0 && Distinct(s) && LedgerOk(c, s, l) && x in Chunks(s, c) && forall k | k in x :: k in l.pool
    ensures LedgerOk(c, s, SR.Ledger(Without(l.pool, x), l.faces + [x]))
  {
    hide Chunks, Without;
    var l' := SR.Ledger(Without(l.pool, x), l.faces + [x]);
    WithoutElements(l.pool, x);
    assert |x| == c && x[0] in x;
    assert SealedOrPooled(l, x);
    assert x !in l.faces;
    forall f | f in Chunks(s, c) ensures SealedOrPooled(l', f) {
      assert SealedOrPooled(l, f);
      if f != x { OtherChunk(s, c, x, f); }
    }
  }

  /** A tick resolves a chunk or nothing. */
  lemma TickKeeps(c: Config, s: seq<Key>, node: NodeState)
    requires c.Valid() && Sorted(s) && Distinct(s) && LedgerOk(c.chunk, s, node.ledger) &&
      RoundNames(c.chunk, s, node.round)
    ensures LedgerOk(c.chunk, s, Ticked(c, node).ledger) && RoundNames(c.chunk, s, Ticked(c, node).round)
    ensures forall p | p in TickNode(c, node).sent :: OfChunk(c.chunk, s, p.setHash)
  {
    hide SR.Tick, Chunks, CandidatePrefix, HashOf, LedgerOk;
    var q := c.Quorum();
    var o := TickNode(c, node).outcome;
    TickSends(node, c.chunk, q);
    CandidateIsChunk(c.chunk, s, node.ledger);
    assert Distinct(node.ledger.pool) by { PoolOf(c.chunk, s, node.ledger); }
    TickLedger(node.round, node.ledger, c.chunk, q);
    TickRound(node.round, node.ledger, c.chunk, q);
    if o.action.Sealed? || o.action.Adopted? {
      ResolvedTally(node.round, node.ledger, c.chunk, q, o.action.setHash);
      assert OfChunk(c.chunk, s, o.action.setHash);
      SealChunk(c.chunk, s, node.ledger, o.action.setHash.keys);
    }
  }

  lemma PoolOf(c: nat, s: seq<Key>, l: SR.Ledger)
    requires c > 0 && LedgerOk(c, s, l)
    ensures Distinct(l.pool)
  {
  }

  /** What a tick announces: sets it vouches for, and its own candidate. */
  lemma TickSends(node: NodeState, c: nat, q: nat)
    requires c > 0
    ensures var cand := CandidatePrefix(node.ledger.pool, c, 1);
      forall p | p in SR.Tick(node.round, node.ledger, c, q).sent ::
        p.setHash in node.round.doneMembers.m || (cand != [] && p.setHash == HashOf(cand))
  {
    hide SR.Conclude, HashOf, CandidatePrefix, SR.Vouch;
    VouchFrom(SR.Last(node.round.doneOrder, SR.DONE_REBROADCAST), node.round.doneMembers.m);
  }

  lemma DeliveryKeeps(c: nat, s: seq<Key>, r: SR.Round, v: Vote)
    requires c > 0 && RoundNames(c, s, r) && OfChunk(c, s, v.proposal.setHash)
    ensures RoundNames(c, s, SR.OnPeer(r, v).0)
    ensures forall p | p in SR.OnPeer(r, v).1 :: OfChunk(c, s, p.setHash)
  {
    hide SR.OnPeer, OfChunk;
    OnPeerRound(r, v);
    var r' := SR.OnPeer(r, v).0;
    forall h | h in r'.peers.m ensures OfChunk(c, s, h) {
      OnPeerNames(r, v, h);
    }
  }

  lemma OnPeerNames(r: SR.Round, v: Vote, h: SetHash)
    ensures h in SR.OnPeer(r, v).0.peers.m ==> h in r.peers.m || h == v.proposal.setHash
  {
  }

  lemma StepKeeps(p: Settling, s: seq<Key>, t: nat)
    requires p.Valid() && t < |p.steps| && s == Sort(p.pool) && Sorted(s) && Distinct(s) &&
      SystemOk(p.c, s, p.states[t])
    ensures SystemOk(p.c, s, p.states[t + 1])
  {
    hide SR.Tick, SR.OnPeer, LedgerOk, OfChunk, Sort;
    assert p.StepAt(t);
    var i := p.steps[t].node;
    var node := p.states[t].nodes[i];
    match p.steps[t] {
      case Deliver(_, a) =>
        DeliveryKeeps(p.c.chunk, s, node.round, Vote(a.from, a.proposal));
      case Tick(_) =>
        TickKeeps(p.c, s, node);
        assert p.states[t + 1].nodes[i] == Ticked(p.c, node);
    }
  }

  lemma StartOk(p: Settling, s: seq<Key>)
    requires p.Valid() && s == Sort(p.pool)
    ensures Sorted(s) && Distinct(s) && SystemOk(p.c, s, p.states[0])
  {
    SortSorts(p.pool);
    SortDistinct(p.pool);
    SortElements(p.pool);
    forall i | 0 <= i < p.c.n
      ensures LedgerOk(p.c.chunk, s, p.states[0].nodes[i].ledger) &&
        RoundNames(p.c.chunk, s, p.states[0].nodes[i].round)
    {
      assert StartsWith(p.states[0].nodes[i], p.pool);
      StartLedger(p.c.chunk, s, p.states[0].nodes[i].ledger, p.pool);
    }
  }

  lemma StartLedger(c: nat, s: seq<Key>, l: SR.Ledger, pool: seq<Key>)
    requires c > 0 && Distinct(pool) && s == Sort(pool) && l.faces == [] && multiset(l.pool) == multiset(pool)
    ensures LedgerOk(c, s, l)
  {
    hide Chunks;
    DistinctFromMultiset(pool, l.pool);
    SortElements(pool);
    assert forall k :: k in l.pool <==> k in multiset(l.pool);
    assert forall k :: k in pool <==> k in multiset(pool);
    forall f | f in Chunks(s, c) ensures SealedOrPooled(l, f) {
      var m :| 0 <= m < |Chunks(s, c)| && Chunks(s, c)[m] == f;
      ChunkAt(s, c, m);
    }
  }

  lemma {:induction false} AlwaysOk(p: Settling, t: nat)
    requires p.Valid() && t < |p.states|
    ensures Sorted(Sort(p.pool)) && Distinct(Sort(p.pool)) && SystemOk(p.c, Sort(p.pool), p.states[t])
  {
    hide SystemOk;
    if t == 0 {
      StartOk(p, Sort(p.pool));
    } else {
      AlwaysOk(p, t - 1);
      StepKeeps(p, Sort(p.pool), t - 1);
    }
  }

  /** At every moment of every interleaving the faces a lead has sealed are different chunks of the sorted pool, in
      whatever order it resolved them, and its pool holds exactly the keys in none of them. */
  lemma AnyOrderSealsChunks(p: Settling, t: nat, i: Node)
    requires p.Valid() && t < |p.states| && i < p.c.n
    ensures i < |p.states[t].nodes| && var l := p.states[t].nodes[i].ledger;
      && Distinct(l.faces) && (forall f | f in l.faces :: f in Chunks(Sort(p.pool), p.c.chunk))
      && (forall k :: k in l.pool <==> k in p.pool && forall f | f in l.faces :: k !in f)
  {
    hide Chunks, Sort;
    AlwaysOk(p, t);
    SortElements(p.pool);
    var s, l := Sort(p.pool), p.states[t].nodes[i].ledger;
    assert LedgerOk(p.c.chunk, s, l);
    forall f | f in l.faces ensures Disjoint(f, l.pool) { assert SealedOrPooled(l, f); }
    forall k | k in p.pool && k !in l.pool ensures exists f :: f in l.faces && k in f {
      var f :| f in Chunks(s, p.c.chunk) && k in f;
      assert SealedOrPooled(l, f);
    }
  }
}
