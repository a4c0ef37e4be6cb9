/** Resolved sets keep being answered for: what a lead remembers, and how a lead one vote short is brought along by one
    that has already resolved the set. */
module SealVouching {
  import opened Ordering
  import opened JsMap
  import opened SealAgreement
  import SR = SealRound
  import opened SealProtocol
  import opened SealSafety
  import opened SealSplit

  // ---- what a lead remembers, in every run ----

  /** The resolved sets are remembered, the members of the last twelve are held, and none of them has a tally. */
  ghost predicate KeepsAnswers(s: SR.Round) {
    RoundOk(s) && SR.Remembers(s) && forall h | h in s.peers.m :: h !in s.done
  }

  lemma HearingKeeps(s: SR.Round, v: Vote)
    requires KeepsAnswers(s)
    ensures KeepsAnswers(SR.OnPeer(s, v).0)
  {
  }

  lemma MarkKeeps(s: SR.Round, h: SetHash, ids: seq<Key>)
    requires KeepsAnswers(s) && h !in s.done
    ensures KeepsAnswers(SR.MarkDone(s, h, ids))
  {
    hide SR.MarkDone, SR.Remembers;
    SR.MarkDoneRemembers(s, h, ids);
    MarkDoneOk(s, h, ids);
  }

  /** What a tick adopts it had a tally for. */
  lemma AdoptedFromPeers(s: SR.Round, mine: Proposal, q: nat)
    requires KeepsAnswers(s) && q > 0
    ensures var d := Decide(Some(mine), SR.VotesIn(s.peers.order, s.peers.m), q); d.Adopt? ==> d.setHash in s.peers.m
  {
    hide Decide, SR.Remembers;
    var votes := SR.VotesIn(s.peers.order, s.peers.m);
    DecideMeans(Some(mine), votes, q);
    SR.PeerRecords(s.peers);
  }

  lemma TickKeepsAnswers(s: SR.Round, l: SR.Ledger, c: nat, q: nat)
    requires c > 0 && q > 0 && KeepsAnswers(s)
    ensures KeepsAnswers(SR.Tick(s, l, c, q).outcome.round)
  {
    hide SR.Tick, SR.MarkDone, CandidatePrefix, HashOf, Decide, KeepsAnswers;
    var cand := CandidatePrefix(l.pool, c, 1);
    TickConcludes(s, l, c, q);
    if cand != [] && HashOf(cand) !in s.done {
      var mine := Proposal(HashOf(cand), cand);
      AdoptedFromPeers(s, mine, q);
      match Decide(Some(mine), SR.VotesIn(s.peers.order, s.peers.m), q) {
        case Seal(h) => MarkKeeps(s, h, cand);
        case Adopt(h, ids) => NotDone(s, h); MarkKeeps(s, h, ids);
        case Stall =>
      }
    }
  }

  lemma NotDone(s: SR.Round, h: SetHash)
    requires KeepsAnswers(s) && h in s.peers.m
    ensures h !in s.done
  {
  }

  /** In every reachable state every lead remembers what it resolved and holds the members of its last twelve sets. */
  lemma {:induction false} AnswersAreKept(r: Run, t: nat, i: Node)
    requires r.Valid() && t < |r.states| && i < r.c.n
    ensures In(r, t, i) && KeepsAnswers(r.states[t].nodes[i].round)
  {
    hide SR.Tick, SR.OnPeer, KeepsAnswers;
    PoolDistinct(r, t, i);
    if t == 0 {
      NewKeeps();
    } else {
      AnswersAreKept(r, t - 1, i);
      assert r.StepAt(t - 1);
      var node := r.states[t - 1].nodes[i];
      if r.steps[t - 1].node == i {
        match r.steps[t - 1] {
          case Deliver(_, a) => HearingKeeps(node.round, Vote(a.from, a.proposal));
          case Tick(_) => TickKeepsAnswers(node.round, node.ledger, r.c.chunk, r.c.Quorum());
          case _ =>
        }
      }
    }
  }

  lemma NewKeeps()
    ensures KeepsAnswers(SR.NewRound())
  {
  }

  // ---- answers ----

  ghost function RoundAt(r: Run, t: int, i: Node): SR.Round requires In(r, t, i) { r.states[t].nodes[i].round }

  /** A lead that has resolved h and holds its members answers whoever announces h. */
  lemma PeerIsAnswered(r: Run, t: nat, j: Node, a: Announcement)
    requires r.Valid() && t < |r.steps| && r.steps[t] == Deliver(j, a) && a.from != j
    requires In(r, t, j) && a.proposal.setHash in RoundAt(r, t, j).done &&
      a.proposal.setHash in RoundAt(r, t, j).doneMembers.m
    ensures t + 1 < |r.states| &&
      Announcement(j, Proposal(a.proposal.setHash, RoundAt(r, t, j).doneMembers.m[a.proposal.setHash]))
              in r.states[t + 1].sent
  {
    hide SR.Tick;
    assert r.StepAt(t);
    var v := Vote(a.from, a.proposal);
    SR.PeerIsHeard(RoundAt(r, t, j), v);
    var reply := Proposal(a.proposal.setHash, RoundAt(r, t, j).doneMembers.m[a.proposal.setHash]);
    assert reply in SR.OnPeer(RoundAt(r, t, j), v).1;
  }

  /** And on every tick it announces its last three sets again. */
  lemma RecentIsAnnounced(r: Run, t: nat, j: Node, k: nat)
    requires r.Valid() && t < |r.steps| && r.steps[t] == SealProtocol.Tick(j) && In(r, t, j)
    requires var order := RoundAt(r, t, j).doneOrder; k < |order| <= k + 3
    ensures var s := RoundAt(r, t, j); var h := s.doneOrder[k];
      h in s.doneMembers.m && t + 1 < |r.states| &&
        Announcement(j, Proposal(h, s.doneMembers.m[h])) in r.states[t + 1].sent
  {
    hide SR.Vouch, SR.Tick;
    assert r.StepAt(t);
    RunInv(r, t);
    AnswersAreKept(r, t, j);
    var node := r.states[t].nodes[j];
    RecentIsVouched(node.round, k);
    var h := node.round.doneOrder[k];
    TickVouches(node, r.c.chunk, r.c.Quorum(), Proposal(h, node.round.doneMembers.m[h]));
  }

  lemma RecentIsVouched(s: SR.Round, k: nat)
    requires SR.Remembers(s) && k < |s.doneOrder| <= k + 3
    ensures var h := s.doneOrder[k];
      h in s.doneMembers.m && Proposal(h, s.doneMembers.m[h]) in SR.Vouch(SR.Last(s.doneOrder, 3), s.doneMembers.m)
  {
    hide SR.Vouch;
    var h, recent, window := s.doneOrder[k], SR.Last(s.doneOrder, 3), SR.Last(s.doneOrder, 12);
    assert recent[k - (|s.doneOrder| - |recent|)] == h;
    assert window[k - (|s.doneOrder| - |window|)] == h;
    assert h in window && h in recent && SR.HasMembers(s.doneMembers.m)(h);
    KeepElements(recent, SR.HasMembers(s.doneMembers.m));
    SR.VouchEach(recent, s.doneMembers.m);
    var held := Keep(recent, SR.HasMembers(s.doneMembers.m));
    var m :| 0 <= m < |held| && held[m] == h;
    assert SR.Vouch(recent, s.doneMembers.m)[m] == Proposal(h, s.doneMembers.m[h]);
  }

  lemma TickVouches(node: NodeState, c: nat, q: nat, p: Proposal)
    requires c > 0 && p in SR.Vouch(SR.Last(node.round.doneOrder, 3), node.round.doneMembers.m)
    ensures p in SR.Tick(node.round, node.ledger, c, q).sent
  {
    hide SR.Vouch, SR.Conclude, CandidatePrefix, HashOf;
  }

  // ---- votes add up ----

  /** The nodes recorded for h. */
  ghost function Voters(s: SR.Round, h: SetHash): set<Node> { if h in s.peers.m then s.peers.m[h].m.Keys else {} }

  /** No set but h has a quorum of recorded votes. */
  ghost predicate NoRival(s: SR.Round, h: SetHash, q: nat) {
    forall g | g in s.peers.m && g != h :: |s.peers.m[g].m| < q
  }

  /** A lead whose candidate has a quorum, its own vote counted, and no rival, seals it; a vote short, it stalls. */
  lemma SealsAtQuorum(s: SR.Round, l: SR.Ledger, c: nat, q: nat)
    requires c > 0 && q > 0 && RoundOk(s)
    requires var cand := CandidatePrefix(l.pool, c, 1);
      cand != [] && HashOf(cand) !in s.done && NoRival(s, HashOf(cand), q)
    ensures var h := HashOf(CandidatePrefix(l.pool, c, 1)); var o := SR.Tick(s, l, c, q).outcome;
      if 1 + |Voters(s, h)| >= q then o.action == SR.Sealed(h) else o == SR.Outcome(s, l, SR.Stalled)
  {
    hide SR.Tick, Decide, HashOf, CandidatePrefix, SR.MarkDone;
    var cand := CandidatePrefix(l.pool, c, 1);
    var mine := Proposal(HashOf(cand), cand);
    var votes := SR.VotesIn(s.peers.order, s.peers.m);
    TickConcludes(s, l, c, q);
    DecideMeans(Some(mine), votes, q);
    var h, d := mine.setHash, Decide(Some(mine), votes, q);
    VotersSize(s, h);
    TallyOfRound(s, mine, h);
    if 1 + |Voters(s, h)| >= q {
      assert !d.Stall?;
      TallyOfRound(s, mine, d.setHash);
      assert d == Seal(h);
    } else {
      forall g ensures Tally(BallotsOf(Some(mine), votes), g) < q { TallyOfRound(s, mine, g); }
      assert d == Stall;
    }
  }

  lemma VotersSize(s: SR.Round, h: SetHash)
    ensures |Voters(s, h)| == if h in s.peers.m then |s.peers.m[h].m| else 0
  {
    if h in s.peers.m { assert |s.peers.m[h].m| == |s.peers.m[h].m.Keys|; }
  }

  /** A tick drops the tally of the set it resolves and no other. */
  lemma TickPeers(s: SR.Round, l: SR.Ledger, c: nat, q: nat)
    requires c > 0 && q > 0 && KeepsAnswers(s)
    ensures var o := SR.Tick(s, l, c, q).outcome;
      o.round.peers.m == if o.action.Sealed? || o.action.Adopted? then s.peers.m - {o.action.setHash} else s.peers.m
  {
    hide SR.Tick, SR.MarkDone, CandidatePrefix, HashOf, Decide, KeepsAnswers;
    var cand := CandidatePrefix(l.pool, c, 1);
    TickConcludes(s, l, c, q);
    if cand != [] && HashOf(cand) !in s.done {
      match Decide(Some(Proposal(HashOf(cand), cand)), SR.VotesIn(s.peers.order, s.peers.m), q) {
        case Seal(h) => MarkedPeers(s, h, cand);
        case Adopt(h, ids) => MarkedPeers(s, h, ids);
        case Stall =>
      }
    }
  }

  lemma MarkedPeers(s: SR.Round, h: SetHash, ids: seq<Key>)
    ensures SR.MarkDone(s, h, ids).peers.m == s.peers.m - {h}
  {
  }

  /** A recorded vote stays until the node resolves the set. */
  lemma {:induction false} VotesStay(r: Run, b: nat, c: nat, i: Node, h: SetHash)
    requires r.Valid() && b <= c < |r.states| && i < r.c.n && forall v :: b <= v < c ==> !Resolves(r, v, i, h)
    ensures In(r, b, i) && In(r, c, i) && Voters(RoundAt(r, b, i), h) <= Voters(RoundAt(r, c, i), h)
    decreases c
  {
    hide SR.Tick, SR.OnPeer, KeepsAnswers;
    PoolDistinct(r, b, i);
    PoolDistinct(r, c, i);
    if b < c {
      VotesStay(r, b, c - 1, i, h);
      assert r.StepAt(c - 1);
      AnswersAreKept(r, c - 1, i);
      var node := r.states[c - 1].nodes[i];
      if r.steps[c - 1].node == i {
        match r.steps[c - 1] {
          case Deliver(_, a) => HeardVoters(node.round, Vote(a.from, a.proposal), h);
          case Tick(_) =>
            TickPeers(node.round, node.ledger, r.c.chunk, r.c.Quorum());
            var o := TickAt(r, c - 1).outcome;
            assert !Resolves(r, c - 1, i, h);
          case _ =>
        }
      }
    }
  }

  lemma HeardVoters(s: SR.Round, v: Vote, h: SetHash)
    ensures Voters(s, h) <= Voters(SR.OnPeer(s, v).0, h)
    ensures v.proposal.setHash !in s.done && v.proposal.setHash == h ==>
      Voters(SR.OnPeer(s, v).0, h) == Voters(s, h) + {v.nodeId}
    ensures v.proposal.setHash in s.done ==> SR.OnPeer(s, v).0 == s
  {
  }

  /** One more vote is enough: a lead one vote short on h, at step b, that is told of h by another lead, and still has h
      as its candidate when it ticks at step c, seals h then, whatever else happened in between. */
  lemma OneMoreVoteSeals(r: Run, b: nat, c: nat, i: Node, j: Node, p: Proposal)
    requires r.Valid() && b < c < |r.steps| && i != j && i < r.c.n
    requires r.steps[b] == Deliver(i, Announcement(j, p)) && r.steps[c] == SealProtocol.Tick(i)
    requires In(r, b, i) && j !in Voters(RoundAt(r, b, i), p.setHash)
    requires 1 + |Voters(RoundAt(r, b, i), p.setHash)| >= r.c.Quorum() - 1
    requires p.setHash !in RoundAt(r, b, i).done && forall v :: b < v < c ==> !Resolves(r, v, i, p.setHash)
    requires HeldAt(r, c, i, p.setHash) && p.setHash !in RoundAt(r, c, i).done
    requires NoRival(RoundAt(r, c, i), p.setHash, r.c.Quorum())
    ensures Resolves(r, c, i, p.setHash) && r.acts[c] == SR.Sealed(p.setHash)
  {
    hide SR.Tick, SR.OnPeer, HashOf, NoRival;
    var h := p.setHash;
    AnswersAreKept(r, c, i);
    HearsVote(r, b, i, j, p);
    VotesStay(r, b + 1, c, i, h);
    SubsetSize(Voters(RoundAt(r, b, i), h) + {j}, Voters(RoundAt(r, c, i), h));
    SealingTick(r, c, i);
  }

  lemma HearsVote(r: Run, b: nat, i: Node, j: Node, p: Proposal)
    requires r.Valid() && b < |r.steps| && r.steps[b] == Deliver(i, Announcement(j, p)) && i != j
    requires In(r, b, i) && p.setHash !in RoundAt(r, b, i).done
    ensures In(r, b + 1, i) && Voters(RoundAt(r, b + 1, i), p.setHash) == Voters(RoundAt(r, b, i), p.setHash) + {j}
  {
    hide SR.Tick, SR.OnPeer;
    assert r.StepAt(b);
    HeardVoters(RoundAt(r, b, i), Vote(j, p), p.setHash);
  }

  /** A tick at a quorum without rivals, in a run. */
  lemma SealingTick(r: Run, c: nat, i: Node)
    requires r.Valid() && c < |r.steps| && r.steps[c] == SealProtocol.Tick(i) && In(r, c, i) &&
      RoundOk(RoundAt(r, c, i))
    requires Cand(r, c, i) != [] && HashOf(Cand(r, c, i)) !in RoundAt(r, c, i).done
    requires NoRival(RoundAt(r, c, i), HashOf(Cand(r, c, i)), r.c.Quorum())
    requires 1 + |Voters(RoundAt(r, c, i), HashOf(Cand(r, c, i)))| >= r.c.Quorum()
    ensures r.acts[c] == SR.Sealed(HashOf(Cand(r, c, i)))
  {
    hide SR.Tick, HashOf, NoRival, Voters;
    assert r.StepAt(c);
    var node := r.states[c].nodes[i];
    SealsAtQuorum(node.round, node.ledger, r.c.chunk, r.c.Quorum());
  }

  // ---- the lead that is behind ----

  /** Lead i, in this run so far, is `short` votes short of a quorum on its own candidate h, which nothing rivals. */
  ghost predicate Short(r: Run, i: Node, h: SetHash, short: nat) {
    && r.Valid() && i < r.c.n && In(r, |r.steps|, i)
    && HeldAt(r, |r.steps|, i, h) && h !in RoundAt(r, |r.steps|, i).done
    && 1 + |Voters(RoundAt(r, |r.steps|, i), h)| + short == r.c.Quorum()
    && NoRival(RoundAt(r, |r.steps|, i), h, r.c.Quorum())
  }

  /** Lead j has resolved h and holds its members ids. */
  ghost predicate CanAnswer(r: Run, j: Node, h: SetHash, ids: seq<Key>) {
    && r.Valid() && j < r.c.n && In(r, |r.steps|, j)
    && var d := RoundAt(r, |r.steps|, j); h in d.done && h in d.doneMembers.m && d.doneMembers.m[h] == ids
  }

  lemma SameLedgerHeld(r: Run, r': Run, i: Node, h: SetHash)
    requires r.Valid() && r'.Valid() && r.c == r'.c && HeldAt(r, |r.steps|, i, h) && In(r', |r'.steps|, i)
    requires r'.states[|r'.steps|].nodes[i].ledger == r.states[|r.steps|].nodes[i].ledger
    ensures HeldAt(r', |r'.steps|, i, h)
  {
  }

  /** One vote short, its tick announces h and stalls. */
  lemma LateAnnounces(r: Run, i: Node, h: SetHash) returns (r': Run)
    requires Short(r, i, h, 1)
    ensures r' == Extend(r, SealProtocol.Tick(i)) && r'.Valid() && Continues(r, r') && r'.acts[|r.steps|] == SR.Stalled
    ensures Now(r').nodes == Now(r).nodes && Announcement(i, Proposal(h, Cand(r, |r.steps|, i))) in Now(r').sent
    ensures Short(r', i, h, 1)
  {
    hide SR.Tick, HashOf, CandidatePrefix, NoRival;
    ExtendValid(r, SealProtocol.Tick(i));
    r' := Extend(r, SealProtocol.Tick(i));
    RunInv(r, |r.steps|);
    assert NodeInv(r, |r.steps|, i);
    var node := Now(r).nodes[i];
    SealsAtQuorum(node.round, node.ledger, r.c.chunk, r.c.Quorum());
    TickOffers(node, r.c.chunk, r.c.Quorum());
    assert Now(r').nodes == Now(r).nodes;
    SameLedgerHeld(r, r', i, h);
  }

  lemma TickOffers(node: NodeState, c: nat, q: nat)
    requires c > 0
    ensures var cand := CandidatePrefix(node.ledger.pool, c, 1);
      cand != [] && HashOf(cand) !in node.round.done ==>
        Proposal(HashOf(cand), cand) in SR.Tick(node.round, node.ledger, c, q).sent
  {
    hide SR.Vouch, SR.Conclude, CandidatePrefix, HashOf;
  }

  /** The lead that resolved h answers, and keeps its state. */
  lemma LateIsAnswered(r: Run, i: Node, j: Node, p: Proposal, ids: seq<Key>) returns (r': Run)
    requires Short(r, i, p.setHash, 1) && CanAnswer(r, j, p.setHash, ids) && i != j && Announcement(i, p) in Now(r).sent
    ensures r' == Extend(r, Deliver(j, Announcement(i, p))) && r'.Valid() && Continues(r, r')
    ensures Now(r').nodes == Now(r).nodes && Announcement(j, Proposal(p.setHash, ids)) in Now(r').sent
    ensures Short(r', i, p.setHash, 1)
  {
    hide SR.Tick, HashOf, CandidatePrefix, NoRival;
    var step := Deliver(j, Announcement(i, p));
    ExtendValid(r, step);
    r' := Extend(r, step);
    SR.PeerIsHeard(Now(r).nodes[j].round, Vote(i, p));
    assert Proposal(p.setHash, ids) in SR.OnPeer(Now(r).nodes[j].round, Vote(i, p)).1;
    assert Now(r').nodes == Now(r).nodes;
    SameLedgerHeld(r, r', i, p.setHash);
  }

  /** The answer counts, and the next tick seals. */
  lemma LateCounts(r: Run, i: Node, j: Node, p: Proposal) returns (r': Run)
    requires Short(r, i, p.setHash, 1) && i != j && j !in Voters(RoundAt(r, |r.steps|, i), p.setHash)
    requires Announcement(j, p) in Now(r).sent
    ensures r'.Valid() && Continues(r, r') && |r'.steps| == |r.steps| + 2
    ensures r'.steps[|r.steps|] == Deliver(i, Announcement(j, p)) && r'.steps[|r.steps| + 1] == SealProtocol.Tick(i)
    ensures r'.acts[|r.steps| + 1] == SR.Sealed(p.setHash)
  {
    hide SR.Tick, SR.OnPeer, HashOf, CandidatePrefix;
    var t, h := |r.steps|, p.setHash;
    ExtendValid(r, Deliver(i, Announcement(j, p)));
    var r1 := Extend(r, Deliver(i, Announcement(j, p)));
    ExtendValid(r1, SealProtocol.Tick(i));
    r' := Extend(r1, SealProtocol.Tick(i));
    SameLedgerHeld(r, r1, i, h);
    HeardRival(RoundAt(r, t, i), Vote(j, p), r.c.Quorum());
    assert r'.states[t] == r.states[t] && r'.states[t + 1] == r1.states[t + 1];
    OneMoreVoteSeals(r', t, t + 1, i, j, p);
  }

  lemma HeardRival(s: SR.Round, v: Vote, q: nat)
    requires NoRival(s, v.proposal.setHash, q)
    ensures NoRival(SR.OnPeer(s, v).0, v.proposal.setHash, q) && SR.OnPeer(s, v).0.done == s.done
  {
  }

  /** A lead one vote short is brought along by one that has resolved its candidate: its tick announces h and stalls,
      the announcement reaches the other lead, the answer comes back, and its next tick seals h. */
  lemma LateLeadSeals(r: Run, i: Node, j: Node, h: SetHash, ids: seq<Key>) returns (r': Run)
    requires Short(r, i, h, 1) && CanAnswer(r, j, h, ids) && i != j && j !in Voters(RoundAt(r, |r.steps|, i), h)
    ensures r'.Valid() && Continues(r, r') && |r'.steps| == |r.steps| + 4
    ensures var t := |r.steps|;
      && r'.steps[t] == SealProtocol.Tick(i) && r'.acts[t] == SR.Stalled
      && r'.steps[t + 1] == Deliver(j, Announcement(i, Proposal(h, Cand(r, t, i))))
      && r'.steps[t + 2] == Deliver(i, Announcement(j, Proposal(h, ids)))
      && r'.steps[t + 3] == SealProtocol.Tick(i) && r'.acts[t + 3] == SR.Sealed(h)
  {
    hide SR.Tick, SR.OnPeer, HashOf, NoRival, CandidatePrefix;
    var r1 := LateAnnounces(r, i, h);
    assert r1.states[|r1.steps|].nodes == r.states[|r.steps|].nodes;
    var r2 := LateIsAnswered(r1, i, j, Proposal(h, Cand(r, |r.steps|, i)), ids);
    assert r2.states[|r2.steps|].nodes == r.states[|r.steps|].nodes;
    r' := LateCounts(r2, i, j, Proposal(h, ids));
  }

  // ---- such leads exist ----

  /** What a tick resolves it remembers last, with members to answer with. */
  lemma ResolvingRemembers(s: SR.Round, l: SR.Ledger, c: nat, q: nat)
    requires c > 0 && q > 0 && KeepsAnswers(s)
    ensures var o := SR.Tick(s, l, c, q).outcome;
      o.action.Sealed? || o.action.Adopted? ==>
        exists ids :: SR.ResolvedLast(o.round, s, o.action.setHash, ids)
  {
    hide SR.Tick, SR.MarkDone, CandidatePrefix, HashOf, Decide, KeepsAnswers, SR.ResolvedLast;
    var cand := CandidatePrefix(l.pool, c, 1);
    TickConcludes(s, l, c, q);
    if cand != [] && HashOf(cand) !in s.done {
      var mine := Proposal(HashOf(cand), cand);
      AdoptedFromPeers(s, mine, q);
      KeptRemembers(s);
      match Decide(Some(mine), SR.VotesIn(s.peers.order, s.peers.m), q) {
        case Seal(h) => SR.MarkDoneRemembers(s, h, cand);
        case Adopt(h, ids) => NotDone(s, h); SR.MarkDoneRemembers(s, h, ids);
        case Stall =>
      }
    }
  }

  lemma KeptRemembers(s: SR.Round)
    requires KeepsAnswers(s)
    ensures SR.Remembers(s)
  {
  }

  /** A lead that has just resolved h can answer for it. */
  lemma ResolverCanAnswer(r: Run, j: Node, h: SetHash) returns (ids: seq<Key>)
    requires r.Valid() && j < r.c.n && |r.steps| > 0 && Resolves(r, |r.steps| - 1, j, h)
    ensures CanAnswer(r, j, h, ids)
  {
    hide SR.Tick;
    var t := |r.steps| - 1;
    assert r.StepAt(t);
    PoolDistinct(r, t + 1, j);
    AnswersAreKept(r, t, j);
    var node := r.states[t].nodes[j];
    ResolvingRemembers(node.round, node.ledger, r.c.chunk, r.c.Quorum());
    var o := TickAt(r, t).outcome;
    assert o.action.setHash == h && RoundAt(r, t + 1, j) == o.round;
    var ids' :| SR.ResolvedLast(o.round, node.round, h, ids');
    ids := ids';
  }

  /** The stall this answers for arises with any two leads or more: one resolves x on votes that leave another, that has
      heard all those leads but the one, a vote short. */
  lemma LateLeadArises(c: Config, x: seq<Key>) returns (r: Run, ids: seq<Key>)
    requires c.Valid() && c.n >= 2 && |x| == c.chunk && Sorted(x) && Distinct(x)
    ensures r.c == c && Short(r, 0, HashOf(x), 1) && CanAnswer(r, c.n - 1, HashOf(x), ids)
    ensures c.n - 1 !in Voters(RoundAt(r, |r.steps|, 0), HashOf(x))
  {
    hide SR.Tick, HashOf, CandidatePrefix, Quiet;
    var n, q, k := c.n, c.Quorum(), x[c.chunk - 1] + 1;
    WholeCandidate(x, c.chunk);
    var r1 := FillAll(c, x, k, n);
    var r2 := TickAll(r1, x, k, x, x, [], n, q - 1);
    var r3 := HearAll(r2, 0, x, 1, q - 1);
    forall i | 0 <= i < q - 1 ensures Announced(Now(r3), i, x) { assert Announced(Now(r2), i, x); }
    r := HearAndSeal(r3, n - 1, x, 0, q - 1);
    ids := ResolverCanAnswer(r, n - 1, HashOf(x));
    var heard: set<Node> :| HeardFrom(Now(r3).nodes[0].round, x, heard, 1, q - 1);
    StillShort(r, x, heard);
  }

  /** A lead that has only listened has resolved nothing, and counts those it heard. */
  lemma StillShort(r: Run, x: seq<Key>, heard: set<Node>)
    requires r.Valid() && r.c.n >= 2 && |Now(r).nodes| == r.c.n &&
      HeardFrom(Now(r).nodes[0].round, x, heard, 1, r.c.Quorum() - 1)
    requires CandidatePrefix(Now(r).nodes[0].ledger.pool, r.c.chunk, 1) == x && x != []
    ensures Short(r, 0, HashOf(x), 1) && r.c.n - 1 !in Voters(RoundAt(r, |r.steps|, 0), HashOf(x))
  {
    hide SR.Tick, HashOf, CandidatePrefix;
    var s := RoundAt(r, |r.steps|, 0);
    assert Voters(s, HashOf(x)) == heard;
  }
}
