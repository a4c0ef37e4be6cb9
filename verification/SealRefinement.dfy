/** Round-by-round agreement refines batch sealing. With equal pools, and every announcement of a round delivered to
    every lead in any order and any number of times, the leads seal exactly the chunks of the sorted pool, in order. */
module SealRefinement {
  import opened Ordering
  import opened JsMap
  import opened SealAgreement
  import SR = SealRound
  import opened SealProtocol
  import opened SealSafety

  // ---- one round ----

  function TickNode(c: Config, node: NodeState): SR.TickResult requires c.chunk > 0 {
    SR.Tick(node.round, node.ledger, c.chunk, c.Quorum())
  }

  function Ticked(c: Config, node: NodeState): NodeState requires c.chunk > 0 {
    NodeState(TickNode(c, node).outcome.round, TickNode(c, node).outcome.ledger)
  }

  /** The nodes below m tick in turn. */
  function TickAll(c: Config, sys: System, m: nat): (r: System)
    requires c.chunk > 0 && m <= |sys.nodes|
    ensures |r.nodes| == |sys.nodes| && sys.sent <= r.sent
  {
    if m == 0 then sys else Exec(c, TickAll(c, sys, m - 1), SealProtocol.Tick(m - 1))
  }

  /** What the leads announce when each ticks once. */
  ghost function Announced(c: Config, sys: System): (r: set<Announcement>) requires c.chunk > 0 {
    set i: Node, p | 0 <= i < |sys.nodes| && p in TickNode(c, sys.nodes[i]).sent :: Announcement(i, p)
  }

  function DeliverTo(c: Config, sys: System, i: Node, msgs: seq<Announcement>): (r: System)
    requires c.chunk > 0 && i < |sys.nodes| && forall a | a in msgs :: a in sys.sent
    ensures |r.nodes| == |sys.nodes| && sys.sent <= r.sent
  {
    if msgs == [] then sys
    else Exec(c, DeliverTo(c, sys, i, msgs[..|msgs| - 1]), Deliver(i, msgs[|msgs| - 1]))
  }

  function DeliverAll(c: Config, sys: System, msgs: seq<seq<Announcement>>, m: nat): (r: System)
    requires c.chunk > 0 && m <= |msgs| <= |sys.nodes|
    requires forall i, a | 0 <= i < |msgs| && a in msgs[i] :: a in sys.sent
    ensures |r.nodes| == |sys.nodes| && sys.sent <= r.sent
  {
    if m == 0 then sys else DeliverTo(c, DeliverAll(c, sys, msgs, m - 1), m - 1, msgs[m - 1])
  }

  /** Every lead ticks, hears everything that was announced, and ticks again; a lone lead just ticks. */
  ghost predicate RoundStep(c: Config, sys: System, sys': System) requires c.Valid() && |sys.nodes| == c.n {
    var announced := TickAll(c, sys, c.n);
    if c.n == 1 then sys' == announced
    else exists msgs: seq<seq<Announcement>> :: FullDelivery(c, sys, msgs, sys')
  }

  ghost predicate FullDelivery(c: Config, sys: System, msgs: seq<seq<Announcement>>, sys': System)
    requires c.Valid() && |sys.nodes| == c.n
  {
    var announced := TickAll(c, sys, c.n);
    && |msgs| == c.n
    && (forall i :: 0 <= i < c.n ==> Elements(msgs[i]) == Announced(c, sys))
    && (forall i, a | 0 <= i < |msgs| && a in msgs[i] :: a in announced.sent)
    && sys' == TickAll(c, DeliverAll(c, announced, msgs, c.n), c.n)
  }

  // ---- what the phases do to each node ----

  lemma {:induction false} TickAllNodes(c: Config, sys: System, m: nat)
    requires c.chunk > 0 && m <= |sys.nodes|
    ensures var r := TickAll(c, sys, m);
      forall i :: 0 <= i < |r.nodes| ==> r.nodes[i] == (if i < m then Ticked(c, sys.nodes[i]) else sys.nodes[i])
  {
    hide SR.Tick;
    if m > 0 { TickAllNodes(c, sys, m - 1); }
  }

  /** Node i's round state after hearing msgs, its own echo dropped. */
  function Hear(s: SR.Round, i: Node, msgs: seq<Announcement>): SR.Round {
    if msgs == [] then s
    else
      var a := msgs[|msgs| - 1];
      var s' := Hear(s, i, msgs[..|msgs| - 1]);
      if a.from == i then s' else SR.OnPeer(s', Vote(a.from, a.proposal)).0
  }

  lemma {:induction false} DeliverToNodes(c: Config, sys: System, i: Node, msgs: seq<Announcement>)
    requires c.chunk > 0 && i < |sys.nodes| && forall a | a in msgs :: a in sys.sent
    ensures var r := DeliverTo(c, sys, i, msgs);
      && r.nodes[i] == sys.nodes[i].(round := Hear(sys.nodes[i].round, i, msgs))
      && forall j :: 0 <= j < |r.nodes| && j != i ==> r.nodes[j] == sys.nodes[j]
  {
    if msgs != [] { DeliverToNodes(c, sys, i, msgs[..|msgs| - 1]); }
  }

  lemma {:induction false} DeliverAllNodes(c: Config, sys: System, msgs: seq<seq<Announcement>>, m: nat)
    requires c.chunk > 0 && m <= |msgs| <= |sys.nodes|
    requires forall i, a | 0 <= i < |msgs| && a in msgs[i] :: a in sys.sent
    ensures var r := DeliverAll(c, sys, msgs, m);
      forall i :: 0 <= i < |r.nodes| ==>
        r.nodes[i] == (if i < m then sys.nodes[i].(round := Hear(sys.nodes[i].round, i, msgs[i])) else sys.nodes[i])
  {
    if m > 0 {
      DeliverAllNodes(c, sys, msgs, m - 1);
      DeliverToNodes(c, DeliverAll(c, sys, msgs, m - 1), m - 1, msgs[m - 1]);
    }
  }

  /** The distinct peers of i whose announcement in msgs names h. */
  ghost function Senders(i: Node, h: SetHash, msgs: seq<Announcement>): set<Node> {
    set a | a in msgs && a.from != i && a.proposal.setHash == h :: a.from
  }

  lemma HearOk(s: SR.Round, v: Vote)
    requires RoundOk(s)
    ensures RoundOk(SR.OnPeer(s, v).0)
  {
    var h := v.proposal.setHash;
    var byNode := s.peers.GetOr(h, Empty());
    assert byNode.Valid() && byNode.Set(v.nodeId, v.proposal.memberIds).Valid();
  }

  lemma TallyLists(s: SR.Round, h: SetHash, v: Vote)
    requires h !in s.done && v.proposal.setHash == h && s.peers.order == if h in s.peers.m then [h] else []
    ensures var r := SR.OnPeer(s, v).0;
      && r == s.(peers := r.peers) && r.peers.order == [h]
      && r.peers.m == s.peers.m[h := s.peers.GetOr(h, Empty()).Set(v.nodeId, v.proposal.memberIds)]
  {
  }

  lemma KeysGrow<K, V>(m: map<K, V>, k: K, v: V)
    ensures m[k := v].Keys == m.Keys + {k}
  {
  }

  /** One more vote for h, in a tally of nothing else. */
  lemma TallyOneMore(s: SR.Round, h: SetHash, v: Vote)
    requires h !in s.done && v.proposal.setHash == h && forall g | g in s.peers.m :: g == h
    requires s.peers.order == if h in s.peers.m then [h] else []
    ensures var r := SR.OnPeer(s, v).0;
      && r == s.(peers := r.peers) && r.peers.order == [h] && h in r.peers.m
      && (forall g | g in r.peers.m :: g == h)
      && r.peers.m[h].m.Keys == (if h in s.peers.m then s.peers.m[h].m.Keys else {}) + {v.nodeId}
  {
    TallyLists(s, h, v);
    hide SR.OnPeer, OrderedMap.Set;
    KeysGrow(s.peers.GetOr(h, Empty()).m, v.nodeId, v.proposal.memberIds);
  }

  /** r is s but for a tally of h alone, with one vote of each of these nodes. */
  ghost predicate TallyIs(s: SR.Round, r: SR.Round, h: SetHash, nodes: set<Node>) {
    && RoundOk(r) && r == s.(peers := r.peers)
    && (forall g | g in r.peers.m :: g == h)
    && (if h in r.peers.m then r.peers.m[h].m.Keys == nodes else nodes == {})
    && r.peers.order == if h in r.peers.m then [h] else []
  }

  lemma TallyStep(s: SR.Round, r: SR.Round, h: SetHash, nodes: set<Node>, v: Vote)
    requires TallyIs(s, r, h, nodes) && h !in s.done && (v.proposal.setHash in s.done || v.proposal.setHash == h)
    ensures TallyIs(s, SR.OnPeer(r, v).0, h, if v.proposal.setHash == h then nodes + {v.nodeId} else nodes)
  {
    HearOk(r, v);
    if v.proposal.setHash == h {
      TallyOneMore(r, h, v);
      hide SR.OnPeer;
    }
  }

  /** Hearing only sets already resolved, and h, changes nothing but the tally for h. */
  lemma {:induction false} HearTally(s: SR.Round, i: Node, h: SetHash, msgs: seq<Announcement>)
    requires RoundOk(s) && s.peers == Empty() && h !in s.done
    requires forall a | a in msgs && a.from != i :: a.proposal.setHash in s.done || a.proposal.setHash == h
    ensures TallyIs(s, Hear(s, i, msgs), h, Senders(i, h, msgs))
  {
    if msgs == [] {
      assert Senders(i, h, msgs) == {};
    } else {
      var front, a := msgs[..|msgs| - 1], msgs[|msgs| - 1];
      assert msgs == front + [a];
      HearTally(s, i, h, front);
      assert Senders(i, h, msgs) == Senders(i, h, front) +
        (if a.from != i && a.proposal.setHash == h then {a.from} else {});
      hide Senders, TallyIs, SR.OnPeer;
      if a.from != i { TallyStep(s, Hear(s, i, front), h, Senders(i, h, front), Vote(a.from, a.proposal)); }
    }
  }

  // ---- a node in step with the sorted pool ----

  /** The resolved order after one more set, capped as the manager caps it. */
  function NextDone(d: seq<SetHash>, h: SetHash): seq<SetHash> {
    if |d| + 1 > SR.DONE_CAP then (d + [h])[1..] else d + [h]
  }

  /** The node has sealed exactly the first m chunks of s, holds the rest, and has resolved the sets in d. */
  ghost predicate NodeSynced(c: nat, node: NodeState, s: seq<Key>, m: nat, d: seq<SetHash>)
    requires c > 0 && m * c <= |s| && m <= |Chunks(s, c)|
  {
    && Distinct(node.ledger.pool) && Elements(node.ledger.pool) == Elements(s[m * c..])
    && node.ledger.faces == Chunks(s, c)[..m]
    && RoundOk(node.round) && node.round.peers == Empty()
    && node.round.doneOrder == d && node.round.done == Elements(d) && node.round.doneMembers.m.Keys <= Elements(d)
  }

  lemma SyncedCandidate(c: nat, node: NodeState, s: seq<Key>, m: nat, d: seq<SetHash>)
    requires c > 0 && m * c <= |s| && m <= |Chunks(s, c)| && NodeSynced(c, node, s, m, d)
    requires Sorted(s) && Distinct(s)
    ensures |node.ledger.pool| == |s| - m * c
    ensures var cand := CandidatePrefix(node.ledger.pool, c, 1);
      if m < |Chunks(s, c)| then cand == Chunks(s, c)[m] && cand != [] && Sort(cand) == cand else cand == []
  {
    PoolCandidate(c, node.ledger.pool, s, m);
  }

  lemma PoolCandidate(c: nat, pool: seq<Key>, s: seq<Key>, m: nat)
    requires c > 0 && m * c <= |s| && m <= |Chunks(s, c)| && Sorted(s) && Distinct(s)
    requires Distinct(pool) && Elements(pool) == Elements(s[m * c..])
    ensures |pool| == |s| - m * c
    ensures var cand := CandidatePrefix(pool, c, 1);
      if m < |Chunks(s, c)| then cand == Chunks(s, c)[m] && cand != [] && Sort(cand) == cand else cand == []
  {
    hide CandidatePrefix, Chunks;
    RestCandidate(c, pool, s[m * c..]);
    ChunkBounds(s, c, m);
    if m < |Chunks(s, c)| { ChunkAt(s, c, m); }
  }

  lemma RestCandidate(c: nat, pool: seq<Key>, rest: seq<Key>)
    requires c > 0 && Sorted(rest) && Distinct(rest) && Distinct(pool) && Elements(pool) == Elements(rest)
    ensures |pool| == |rest|
    ensures CandidatePrefix(pool, c, 1) == if |rest| < c then [] else rest[..c]
    ensures |rest| >= c ==> Sort(rest[..c]) == rest[..c]
  {
    hide CandidatePrefix;
    SortOfSameSet(pool, rest);
    SortOfSorted(rest);
    SortSorts(pool);
    CandidateOne(pool, c);
    if |rest| >= c { SortOfSorted(rest[..c]); }
  }

  lemma DifferentChunks(s: seq<Key>, c: nat, i: nat, j: nat)
    requires c > 0 && Distinct(s) && i < j < |Chunks(s, c)|
    ensures HashOf(Chunks(s, c)[i]) != HashOf(Chunks(s, c)[j])
  {
    ChunksDisjoint(s, c, i, j);
    var a, b := Chunks(s, c)[i], Chunks(s, c)[j];
    SortElements(a);
    SortElements(b);
    assert a[0] in a;
    assert a[0] in HashOf(a).keys && a[0] !in HashOf(b).keys;
  }

  /** Every set in d is an earlier chunk. */
  ghost predicate Earlier(c: nat, s: seq<Key>, m: nat, d: seq<SetHash>) requires c > 0 && m <= |Chunks(s, c)| {
    Distinct(d) && forall h | h in d :: exists k :: 0 <= k < m && h == HashOf(Chunks(s, c)[k])
  }

  lemma NextChunkIsNew(c: nat, s: seq<Key>, m: nat, d: seq<SetHash>)
    requires c > 0 && m < |Chunks(s, c)| && Earlier(c, s, m, d) && Sorted(s) && Distinct(s)
    ensures HashOf(Chunks(s, c)[m]) !in d
    ensures Earlier(c, s, m + 1, NextDone(d, HashOf(Chunks(s, c)[m])))
  {
    var g := HashOf(Chunks(s, c)[m]);
    forall h | h in d ensures h != g {
      var k :| 0 <= k < m && h == HashOf(Chunks(s, c)[k]);
      DifferentChunks(s, c, k, m);
    }
    forall h | h in NextDone(d, g) ensures exists k :: 0 <= k < m + 1 && h == HashOf(Chunks(s, c)[k]) {
      if h == g {
        assert h == HashOf(Chunks(s, c)[m]);
      } else {
        assert h in d;
        var k :| 0 <= k < m && h == HashOf(Chunks(s, c)[k]);
      }
    }
  }

  // ---- the two ticks of a round ----

  /** Alone with its own vote a lead among several only announces; with nothing left to seal it is idle. */
  lemma FirstTick(c: Config, node: NodeState, s: seq<Key>, m: nat, d: seq<SetHash>)
    requires c.Valid() && c.n >= 2 && m * c.chunk <= |s| && m <= |Chunks(s, c.chunk)| && Sorted(s) && Distinct(s)
    requires NodeSynced(c.chunk, node, s, m, d) && Earlier(c.chunk, s, m, d)
    ensures Ticked(c, node) == node
    ensures forall p | p in TickNode(c, node).sent ::
      p.setHash in d ||
        (m < |Chunks(s, c.chunk)| && p == Proposal(HashOf(Chunks(s, c.chunk)[m]), Chunks(s, c.chunk)[m]))
    ensures m < |Chunks(s, c.chunk)| ==>
      Proposal(HashOf(Chunks(s, c.chunk)[m]), Chunks(s, c.chunk)[m]) in TickNode(c, node).sent
  {
    hide CandidatePrefix, HashOf;
    var round := node.round;
    SyncedCandidate(c.chunk, node, s, m, d);
    VouchFrom(SR.Last(round.doneOrder, SR.DONE_REBROADCAST), round.doneMembers.m);
    if m < |Chunks(s, c.chunk)| {
      var cand := Chunks(s, c.chunk)[m];
      var mine := Proposal(HashOf(cand), cand);
      NextChunkIsNew(c.chunk, s, m, d);
      var votes := SR.VotesIn(round.peers.order, round.peers.m);
      assert votes == [];
      DecideMeans(Some(mine), votes, c.Quorum());
      assert Decide(Some(mine), votes, c.Quorum()) == Stall;
    }
  }

  /** Backed by a quorum, it seals the next chunk. */
  lemma LastTick(c: Config, before: NodeState, node: NodeState, s: seq<Key>, m: nat, d: seq<SetHash>)
    requires c.Valid() && m * c.chunk <= |s| && m < |Chunks(s, c.chunk)| && Sorted(s) && Distinct(s)
    requires NodeSynced(c.chunk, before, s, m, d) && Earlier(c.chunk, s, m, d)
    requires node == before.(round := before.round.(peers := node.round.peers)) && RoundOk(node.round)
    requires var h := HashOf(Chunks(s, c.chunk)[m]);
      && (forall g | g in node.round.peers.m :: g == h) &&
        (node.round.peers.order == if h in node.round.peers.m then [h] else [])
      && (if h in node.round.peers.m then |node.round.peers.m[h].m| else 0) + 1 >= c.Quorum()
    ensures (m + 1) * c.chunk <= |s|
    ensures NodeSynced(c.chunk, Ticked(c, node), s, m + 1, NextDone(d, HashOf(Chunks(s, c.chunk)[m])))
  {
    hide CandidatePrefix, HashOf, SR.Tick, Chunks;
    var cand := Chunks(s, c.chunk)[m];
    var h := HashOf(cand);
    SyncedCandidate(c.chunk, before, s, m, d);
    NextChunkIsNew(c.chunk, s, m, d);
    SealsWhenBacked(node.round, node.ledger, c.chunk, c.Quorum());
    TickLedger(node.round, node.ledger, c.chunk, c.Quorum());
    ChunkAt(s, c.chunk, m);
    HashKeys(cand);
    SealedRound(node.round, node.ledger, c, d);
    AdvancePool(node.ledger.pool, c.chunk, s, m);
  }

  /** Sealing takes the next chunk off the rest of the pool. */
  lemma AdvancePool(pool: seq<Key>, c: nat, s: seq<Key>, m: nat)
    requires c > 0 && m < |Chunks(s, c)| && Sorted(s) && Distinct(s) && m * c <= (m + 1) * c <= |s| &&
      Chunks(s, c)[m] == s[m * c..(m + 1) * c]
    requires Distinct(pool) && Elements(pool) == Elements(s[m * c..])
    ensures Elements(Without(pool, Chunks(s, c)[m])) == Elements(s[(m + 1) * c..])
  {
    var chunk, rest, rest' := Chunks(s, c)[m], s[m * c..], s[(m + 1) * c..];
    WithoutElements(pool, chunk);
    assert rest == chunk + rest';
    assert Distinct(rest);
    DistinctSplit(chunk, rest');
    forall k ensures k in Elements(Without(pool, chunk)) <==> k in Elements(rest') {
      assert k in pool <==> k in Elements(pool);
      assert k in rest <==> k in Elements(rest);
    }
  }

  lemma SealedMarks(round: SR.Round, l: SR.Ledger, chunk: nat, q: nat)
    requires chunk > 0
    ensures var cand := CandidatePrefix(l.pool, chunk, 1); var o := SR.Tick(round, l, chunk, q).outcome;
      o.action == SR.Sealed(HashOf(cand)) ==> o.round == SR.MarkDone(round, HashOf(cand), cand)
  {
    hide CandidatePrefix, HashOf, Decide, SR.MarkDone, SR.VotesIn, SR.SealSet, SR.AdoptSet;
  }

  /** What sealing leaves in the round state. */
  lemma SealedRound(round: SR.Round, l: SR.Ledger, c: Config, d: seq<SetHash>)
    requires c.Valid() && RoundOk(round) && Distinct(d)
    requires round.doneOrder == d && round.done == Elements(d) && round.doneMembers.m.Keys <= Elements(d)
    requires var h := HashOf(CandidatePrefix(l.pool, c.chunk, 1));
      && h !in d && (forall g | g in round.peers.m :: g == h) &&
        (round.peers.order == if h in round.peers.m then [h] else [])
    ensures var h := HashOf(CandidatePrefix(l.pool, c.chunk, 1));
      var o := SR.Tick(round, l, c.chunk, c.Quorum()).outcome; var r := o.round;
      o.action == SR.Sealed(h) ==>
      && RoundOk(r) && r.peers == Empty() && r.doneOrder == NextDone(d, h) && r.done == Elements(NextDone(d, h))
      && r.doneMembers.m.Keys <= Elements(NextDone(d, h))
  {
    var cand := CandidatePrefix(l.pool, c.chunk, 1);
    var h := HashOf(cand);
    hide SR.Tick, SR.MarkDone, CandidatePrefix, HashOf;
    SealedMarks(round, l, c.chunk, c.Quorum());
    MarkDoneOk(round, h, cand);
    MarkDoneShape(round, h, cand, d);
  }

  lemma NextDoneElements(d: seq<SetHash>, h: SetHash)
    requires Distinct(d) && h !in d
    ensures Elements(NextDone(d, h)) == if |d| + 1 > SR.DONE_CAP then Elements(d) + {h} - {(d + [h])[0]}
      else Elements(d) + {h}
  {
    var whole := d + [h];
    assert Elements(whole) == Elements(d) + {h};
    if |whole| > SR.DONE_CAP {
      assert whole == [whole[0]] + whole[1..];
      assert Elements(whole) == {whole[0]} + Elements(whole[1..]);
      assert whole[0] !in whole[1..];
    }
  }

  lemma MarkDoneShape(round: SR.Round, h: SetHash, ids: seq<Key>, d: seq<SetHash>)
    requires RoundOk(round) && Distinct(d) && h !in d
    requires round.doneOrder == d && round.done == Elements(d) && round.doneMembers.m.Keys <= Elements(d)
    requires (forall g | g in round.peers.m :: g == h) && (round.peers.order == if h in round.peers.m then [h] else [])
    ensures var r := SR.MarkDone(round, h, ids);
      && r.peers == Empty() && r.doneOrder == NextDone(d, h) && r.done == Elements(NextDone(d, h))
      && r.doneMembers.m.Keys <= Elements(NextDone(d, h))
  {
    hide SR.Prune, SR.Last, Elements, Distinct;
    var r := SR.MarkDone(round, h, ids);
    DeleteOnly(round.peers, h);
    NextDoneElements(d, h);
    assert h in round.done <==> h in d;
    assert |d + [h]| == |d| + 1;
  }

  lemma DeleteOnly(peers: OrderedMap<SetHash, OrderedMap<Node, seq<Key>>>, h: SetHash)
    requires (forall g | g in peers.m :: g == h) && (peers.order == if h in peers.m then [h] else [])
    ensures peers.Delete(h) == Empty()
  {
    assert peers.Delete(h).m == map[];
    assert peers.Delete(h).order == [];
  }

  // ---- a round, and many ----

  ghost predicate Synced(c: Config, sys: System, s: seq<Key>, m: nat, d: seq<SetHash>) {
    && c.Valid() && |sys.nodes| == c.n && Sorted(s) && Distinct(s)
    && m * c.chunk <= |s| && m <= |Chunks(s, c.chunk)| && Earlier(c.chunk, s, m, d)
    && forall i :: 0 <= i < c.n ==> NodeSynced(c.chunk, sys.nodes[i], s, m, d)
  }

  lemma IdleTick(c: Config, node: NodeState, s: seq<Key>, m: nat, d: seq<SetHash>)
    requires c.Valid() && m * c.chunk <= |s| && m == |Chunks(s, c.chunk)| && Sorted(s) && Distinct(s)
    requires NodeSynced(c.chunk, node, s, m, d)
    ensures Ticked(c, node) == node
  {
    SyncedCandidate(c.chunk, node, s, m, d);
  }

  lemma {:induction false} HearResolved(s: SR.Round, i: Node, msgs: seq<Announcement>)
    requires forall a | a in msgs && a.from != i :: a.proposal.setHash in s.done
    ensures Hear(s, i, msgs) == s
  {
    if msgs != [] { HearResolved(s, i, msgs[..|msgs| - 1]); }
  }

  lemma {:induction false} AtLeast(s: set<Node>, n: nat)
    requires forall j :: 0 <= j < n ==> j in s
    ensures |s| >= n
  {
    if n > 0 { AtLeast(s - {n - 1}, n - 1); }
  }

  /** Every lead's announcement of the next chunk is among the messages. */
  lemma EveryoneSends(c: Config, sys: System, s: seq<Key>, m: nat, d: seq<SetHash>, i: Node, msgs: seq<Announcement>)
    requires Synced(c, sys, s, m, d) && c.n >= 2 && i < c.n && m < |Chunks(s, c.chunk)|
    requires Elements(msgs) == Announced(c, sys)
    ensures forall j :: 0 <= j < c.n ==> j in Senders(i, HashOf(Chunks(s, c.chunk)[m]), msgs) + {i}
  {
    hide SR.Tick, HashOf;
    var h := HashOf(Chunks(s, c.chunk)[m]);
    forall j | 0 <= j < c.n ensures j in Senders(i, h, msgs) + {i} {
      assert NodeSynced(c.chunk, sys.nodes[j], s, m, d);
      FirstTick(c, sys.nodes[j], s, m, d);
      var a := Announcement(j, Proposal(h, Chunks(s, c.chunk)[m]));
      assert a in Announced(c, sys);
      assert a in msgs by { assert a in Elements(msgs); }
    }
  }

  /** What node i hears in a full delivery while chunk m is on the table. */
  lemma HearsEveryone(c: Config, sys: System, s: seq<Key>, m: nat, d: seq<SetHash>, i: Node, msgs: seq<Announcement>)
    requires Synced(c, sys, s, m, d) && c.n >= 2 && i < c.n && m < |Chunks(s, c.chunk)|
    requires Elements(msgs) == Announced(c, sys)
    ensures var before := sys.nodes[i];
      var node := before.(round := Hear(before.round, i, msgs));
      var h := HashOf(Chunks(s, c.chunk)[m]);
      && node == before.(round := before.round.(peers := node.round.peers)) && RoundOk(node.round)
      && (forall g | g in node.round.peers.m :: g == h) &&
        (node.round.peers.order == if h in node.round.peers.m then [h] else [])
      && (if h in node.round.peers.m then |node.round.peers.m[h].m| else 0) + 1 >= c.Quorum()
  {
    hide SR.Tick, HashOf;
    var h := HashOf(Chunks(s, c.chunk)[m]);
    var before := sys.nodes[i];
    NextChunkIsNew(c.chunk, s, m, d);
    assert NodeSynced(c.chunk, before, s, m, d);
    OnlyNextHeard(c, sys, s, m, d, msgs);
    HearTally(before.round, i, h, msgs);
    EveryoneSends(c, sys, s, m, d, i, msgs);
    hide NodeSynced, Hear, Synced, Senders;
    EnoughHeard(Hear(before.round, i, msgs), i, h, msgs, c.n);
  }

  lemma OnlyNextHeard(c: Config, sys: System, s: seq<Key>, m: nat, d: seq<SetHash>, msgs: seq<Announcement>)
    requires Synced(c, sys, s, m, d) && c.n >= 2 && m < |Chunks(s, c.chunk)| && Elements(msgs) == Announced(c, sys)
    ensures forall a | a in msgs :: a.proposal.setHash in d || a.proposal.setHash == HashOf(Chunks(s, c.chunk)[m])
  {
    hide SR.Tick, HashOf;
    forall a | a in msgs ensures a.proposal.setHash in d || a.proposal.setHash == HashOf(Chunks(s, c.chunk)[m]) {
      assert a in Elements(msgs);
      assert NodeSynced(c.chunk, sys.nodes[a.from], s, m, d);
      FirstTick(c, sys.nodes[a.from], s, m, d);
    }
  }

  /** With everyone among the senders and oneself, the tally and one's own ballot come to n. */
  lemma EnoughHeard(r: SR.Round, i: Node, h: SetHash, msgs: seq<Announcement>, n: nat)
    requires forall j :: 0 <= j < n ==> j in Senders(i, h, msgs) + {i}
    requires if h in r.peers.m then r.peers.m[h].m.Keys == Senders(i, h, msgs) else Senders(i, h, msgs) == {}
    ensures (if h in r.peers.m then |r.peers.m[h].m| else 0) + 1 >= n
  {
    var senders := Senders(i, h, msgs);
    hide Senders;
    AtLeast(senders + {i}, n);
    assert |senders + {i}| <= |senders| + 1;
    if h in r.peers.m { assert |r.peers.m[h].m| == |r.peers.m[h].m.Keys|; }
  }

  lemma FirstTicks(c: Config, sys: System, s: seq<Key>, m: nat, d: seq<SetHash>)
    requires Synced(c, sys, s, m, d) && c.n >= 2
    ensures TickAll(c, sys, c.n).nodes == sys.nodes
  {
    hide SR.Tick;
    TickAllNodes(c, sys, c.n);
    forall i | 0 <= i < c.n ensures TickAll(c, sys, c.n).nodes[i] == sys.nodes[i] {
      assert NodeSynced(c.chunk, sys.nodes[i], s, m, d);
      FirstTick(c, sys.nodes[i], s, m, d);
    }
  }

  lemma SoloSeals(c: Config, sys: System, s: seq<Key>, m: nat, d: seq<SetHash>)
    requires Synced(c, sys, s, m, d) && m < |Chunks(s, c.chunk)| && c.n == 1
    ensures var sys' := TickAll(c, sys, 1);
      (m + 1) * c.chunk <= |s| &&
        NodeSynced(c.chunk, sys'.nodes[0], s, m + 1, NextDone(d, HashOf(Chunks(s, c.chunk)[m])))
  {
    hide SR.Tick;
    TickAllNodes(c, sys, 1);
    assert NodeSynced(c.chunk, sys.nodes[0], s, m, d);
    LastTick(c, sys.nodes[0], sys.nodes[0], s, m, d);
  }

  /** A round with something left to seal seals the next chunk everywhere. */
  lemma RoundSeals(c: Config, sys: System, sys': System, s: seq<Key>, m: nat, d: seq<SetHash>)
    requires Synced(c, sys, s, m, d) && m < |Chunks(s, c.chunk)| && RoundStep(c, sys, sys')
    ensures Synced(c, sys', s, m + 1, NextDone(d, HashOf(Chunks(s, c.chunk)[m])))
  {
    hide SR.Tick, NodeSynced, RoundOk, Hear, Earlier, HashOf, Chunks;
    var d' := NextDone(d, HashOf(Chunks(s, c.chunk)[m]));
    NextChunkIsNew(c.chunk, s, m, d);
    ChunkBounds(s, c.chunk, m);
    if c.n == 1 {
      SoloSeals(c, sys, s, m, d);
    } else {
      var msgs: seq<seq<Announcement>> :| FullDelivery(c, sys, msgs, sys');
      DeliveryNodes(c, sys, sys', s, m, d, msgs);
      forall i | 0 <= i < c.n ensures NodeSynced(c.chunk, sys'.nodes[i], s, m + 1, d') {
        var before := sys.nodes[i];
        assert NodeSynced(c.chunk, before, s, m, d);
        HearsEveryone(c, sys, s, m, d, i, msgs[i]);
        LastTick(c, before, before.(round := Hear(before.round, i, msgs[i])), s, m, d);
      }
    }
  }

  /** After a full delivery each node has ticked on what it heard. */
  lemma DeliveryNodes(c: Config, sys: System, sys': System, s: seq<Key>, m: nat, d: seq<SetHash>,
        msgs: seq<seq<Announcement>>)
    requires Synced(c, sys, s, m, d) && c.n >= 2 && FullDelivery(c, sys, msgs, sys')
    ensures |sys'.nodes| == c.n
    ensures forall i :: 0 <= i < c.n ==>
      sys'.nodes[i] == Ticked(c, sys.nodes[i].(round := Hear(sys.nodes[i].round, i, msgs[i])))
  {
    hide SR.Tick, NodeSynced, Hear;
    var announced := TickAll(c, sys, c.n);
    FirstTicks(c, sys, s, m, d);
    DeliverAllNodes(c, announced, msgs, c.n);
    TickAllNodes(c, DeliverAll(c, announced, msgs, c.n), c.n);
  }

  /** A round with nothing left changes no node. */
  lemma RoundIdles(c: Config, sys: System, sys': System, s: seq<Key>, m: nat, d: seq<SetHash>)
    requires Synced(c, sys, s, m, d) && m == |Chunks(s, c.chunk)| && RoundStep(c, sys, sys')
    ensures sys'.nodes == sys.nodes
  {
    hide SR.Tick;
    forall i | 0 <= i < c.n ensures Ticked(c, sys.nodes[i]) == sys.nodes[i] {
      assert NodeSynced(c.chunk, sys.nodes[i], s, m, d);
      IdleTick(c, sys.nodes[i], s, m, d);
    }
    TickAllNodes(c, sys, c.n);
    var announced := TickAll(c, sys, c.n);
    assert announced.nodes == sys.nodes;
    if c.n > 1 {
      var msgs: seq<seq<Announcement>> :| FullDelivery(c, sys, msgs, sys');
      DeliverAllNodes(c, announced, msgs, c.n);
      var heard := DeliverAll(c, announced, msgs, c.n);
      forall i | 0 <= i < c.n ensures heard.nodes[i] == sys.nodes[i] {
        assert NodeSynced(c.chunk, sys.nodes[i], s, m, d);
        forall a | a in msgs[i] ensures a.proposal.setHash in d {
          assert a in Elements(msgs[i]);
          assert NodeSynced(c.chunk, sys.nodes[a.from], s, m, d);
          FirstTick(c, sys.nodes[a.from], s, m, d);
        }
        HearResolved(sys.nodes[i].round, i, msgs[i]);
      }
      assert heard.nodes == sys.nodes;
      TickAllNodes(c, heard, c.n);
    }
  }

  /** Every lead starts fresh with the same keys pooled, in whatever order they arrived. */
  ghost predicate Start(c: Config, sys: System, pool: seq<Key>) {
    && c.Valid() && |sys.nodes| == c.n && Distinct(pool)
    && forall i :: 0 <= i < c.n ==> StartsWith(sys.nodes[i], pool)
  }

  ghost predicate StartsWith(node: NodeState, pool: seq<Key>) {
    node.round == SR.NewRound() && node.ledger.faces == [] && multiset(node.ledger.pool) == multiset(pool)
  }

  ghost predicate Rounds(c: Config, states: seq<System>) {
    && c.Valid() && states != [] && (forall r :: 0 <= r < |states| ==> |states[r].nodes| == c.n)
    && forall r :: 0 <= r < |states| - 1 ==> RoundStep(c, states[r], states[r + 1])
  }

  lemma StartSynced(c: Config, sys: System, pool: seq<Key>)
    requires Start(c, sys, pool)
    ensures Synced(c, sys, Sort(pool), 0, [])
  {
    var s := Sort(pool);
    SortSorts(pool);
    SortDistinct(pool);
    SortElements(pool);
    assert s[0 * c.chunk..] == s;
    forall i | 0 <= i < c.n ensures NodeSynced(c.chunk, sys.nodes[i], s, 0, []) {
      assert StartsWith(sys.nodes[i], pool);
      var p := sys.nodes[i].ledger.pool;
      DistinctFromMultiset(pool, p);
      SortOfPermutation(pool, p);
      SortElements(p);
    }
  }

  lemma {:induction false} RoundsSynced(c: Config, states: seq<System>, pool: seq<Key>, r: nat)
      returns (d: seq<SetHash>)
    requires Rounds(c, states) && Start(c, states[0], pool) && r < |states|
    ensures Synced(c, states[r], Sort(pool), Min(r, |Chunks(Sort(pool), c.chunk)|), d)
    decreases r
  {
    hide SR.Tick, RoundStep;
    var s := Sort(pool);
    if r == 0 {
      StartSynced(c, states[0], pool);
      d := [];
    } else {
      var m := Min(r - 1, |Chunks(s, c.chunk)|);
      d := RoundsSynced(c, states, pool, r - 1);
      assert RoundStep(c, states[r - 1], states[r - 1 + 1]);
      if m < |Chunks(s, c.chunk)| {
        RoundSeals(c, states[r - 1], states[r], s, m, d);
        d := NextDone(d, HashOf(Chunks(s, c.chunk)[m]));
      } else {
        RoundIdles(c, states[r - 1], states[r], s, m, d);
      }
    }
  }

  /** After r rounds every lead has sealed exactly the first r chunks of the sorted pool, in order; once they run out
      it has sealed every chunk the one-pass batch seal computes and keeps the same remainder, shorter than a chunk. */
  lemma RoundsRefineBatch(c: Config, states: seq<System>, pool: seq<Key>, r: nat, i: Node)
    requires Rounds(c, states) && Start(c, states[0], pool) && r < |states| && i < c.n
    ensures var batch := Chunks(Sort(pool), c.chunk); var l := states[r].nodes[i].ledger;
      && l.faces == batch[..Min(r, |batch|)]
      && (r >= |batch| ==>
        l.faces == batch && |batch| * c.chunk <= |Sort(pool)| && Sort(l.pool) == Sort(pool)[|batch| * c.chunk..]
                           && |l.pool| < c.chunk)
  {
    hide SR.Tick;
    var s := Sort(pool);
    var batch := Chunks(s, c.chunk);
    var d := RoundsSynced(c, states, pool, r);
    var node := states[r].nodes[i];
    assert NodeSynced(c.chunk, node, s, Min(r, |batch|), d);
    if r >= |batch| {
      assert batch[..|batch|] == batch;
      ChunkBounds(s, c.chunk, |batch|);
      SortOfSameSet(node.ledger.pool, s[|batch| * c.chunk..]);
      SortOfSorted(s[|batch| * c.chunk..]);
      SortSorts(node.ledger.pool);
    }
  }

  lemma {:induction false} TickAllAnnounces(c: Config, sys: System, m: nat, i: Node, p: Proposal)
    requires c.chunk > 0 && i < m <= |sys.nodes|
    ensures p in TickNode(c, sys.nodes[i]).sent ==> Announcement(i, p) in TickAll(c, sys, m).sent
  {
    hide SR.Tick;
    TickAllNodes(c, sys, m - 1);
    if i < m - 1 {
      TickAllAnnounces(c, sys, m - 1, i, p);
    } else {
      assert TickNode(c, TickAll(c, sys, m - 1).nodes[i]) == TickNode(c, sys.nodes[i]);
    }
  }

  lemma {:induction false} Listing(s: set<Announcement>) returns (r: seq<Announcement>)
    ensures Elements(r) == s
  {
    if s == {} {
      r := [];
    } else {
      var a :| a in s;
      var rest := Listing(s - {a});
      r := [a] + rest;
      forall x ensures x in Elements(r) <==> x in s { assert x in rest <==> x in Elements(rest); }
    }
  }

  /** A round with full delivery can always happen. */
  lemma RoundCanHappen(c: Config, sys: System)
    requires c.Valid() && |sys.nodes| == c.n
    ensures exists sys': System :: |sys'.nodes| == c.n && RoundStep(c, sys, sys')
  {
    hide SR.Tick;
    var announced := TickAll(c, sys, c.n);
    if c.n == 1 {
      assert RoundStep(c, sys, announced);
    } else {
      forall a | a in Announced(c, sys) ensures a in announced.sent {
        TickAllAnnounces(c, sys, c.n, a.from, a.proposal);
      }
      var list := Listing(Announced(c, sys));
      forall a | a in list ensures a in announced.sent { assert a in Elements(list); }
      var msgs := seq(c.n, _ => list);
      var sys' := TickAll(c, DeliverAll(c, announced, msgs, c.n), c.n);
      assert FullDelivery(c, sys, msgs, sys');
      assert RoundStep(c, sys, sys');
    }
  }
}
