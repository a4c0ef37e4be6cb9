/** The per-node round manager: a tally of peer proposals, the sets already resolved, and one
    agreement step per tick. The injected ledger and transport are the fields `ledger` and `outbox`. */
module SealRound {
  import opened Ordering
  import opened JsMap
  import opened SealAgreement

  const DONE_REBROADCAST: nat := 3
  const DONE_CAP: nat := 4096

  datatype Round = Round(
    peers: OrderedMap<SetHash, OrderedMap<Node, seq<Key>>>,
    done: set<SetHash>,
    doneOrder: seq<SetHash>,
    doneMembers: OrderedMap<SetHash, seq<Key>>)

  /** The unsealed pool and the sets sealed out of it, oldest first. */
  datatype Ledger = Ledger(pool: seq<Key>, faces: seq<seq<Key>>)

  datatype Action = Idle | Sealed(setHash: SetHash) | Adopted(setHash: SetHash) | StallAdopt(setHash: SetHash) | Stalled

  /** The state and action after a decision is carried out; a tick also says what it broadcast. */
  datatype Outcome = Outcome(round: Round, ledger: Ledger, action: Action)
  datatype TickResult = TickResult(outcome: Outcome, sent: seq<Proposal>)

  function NewRound(): Round { Round(Empty(), {}, [], Empty()) }

  function Last<T>(s: seq<T>, k: nat): (r: seq<T>) {
    if |s| <= k then s else s[|s| - k..]
  }

  // ---- the injected ledger, by its contract ----

  /** Seal exactly these items; a no-op when some of them have already left the pool. */
  function SealSet(l: Ledger, items: seq<Key>): (r: Ledger) {
    if forall k | k in items :: k in l.pool
    then Ledger(Without(l.pool, items), l.faces + [Sort(items)])
    else l
  }

  /** What all the faces hold together. */
  ghost function Held(faces: seq<seq<Key>>): multiset<Key> {
    if faces == [] then multiset{} else Held(faces[..|faces| - 1]) + multiset(faces[|faces| - 1])
  }

  /** Pool and faces together hold the same keys as before, each as often; and what leaves the pool fills one face. */
  ghost predicate Conserved(l: Ledger, r: Ledger) {
    && multiset(r.pool) + Held(r.faces) == multiset(l.pool) + Held(l.faces)
    && (r == l || (|r.faces| == |l.faces| + 1 && r.faces[..|l.faces|] == l.faces && Sorted(r.faces[|l.faces|])))
  }

  lemma SealConserves(l: Ledger, items: seq<Key>)
    requires Distinct(l.pool) && Distinct(items)
    ensures Conserved(l, SealSet(l, items))
    ensures (forall k | k in items :: k in l.pool) && items != [] ==> SealSet(l, items) != l
  {
    if forall k | k in items :: k in l.pool {
      var r := SealSet(l, items);
      SortSorts(items);
      assert r.faces[..|l.faces|] == l.faces;
      DistinctMultiset(l.pool);
      DistinctMultiset(items);
      WithoutElements(l.pool, items);
      DistinctMultiset(r.pool);
      assert Elements(r.pool) == Elements(l.pool) - Elements(items);
      assert |r.faces| == |l.faces| + 1;
    }
  }

  /** Resolve the ids from the pool, refuse when one is missing or the digest differs, else seal. */
  function AdoptSet(l: Ledger, h: SetHash, ids: seq<Key>): (r: Option<Ledger>) {
    var items := Within(l.pool, ids);
    if |items| < |ids| || HashOf(items) != h then None else Some(SealSet(l, items))
  }

  /** The pool holds every named member, and they are the set the digest names. */
  ghost predicate CanAdopt(pool: seq<Key>, h: SetHash, ids: seq<Key>) {
    |Within(pool, ids)| >= |ids| && multiset(Within(pool, ids)) == multiset(h.keys) && Sorted(h.keys)
  }

  lemma AdoptSetIff(l: Ledger, h: SetHash, ids: seq<Key>)
    ensures AdoptSet(l, h, ids).Some? <==> CanAdopt(l.pool, h, ids)
  {
    var items := Within(l.pool, ids);
    SortSorts(items);
    if multiset(items) == multiset(h.keys) && Sorted(h.keys) { SortedUnique(Sort(items), h.keys); }
  }

  // ---- the manager as functions on its state ----

  /** Re-announce each recent set whose members are still held. */
  function Vouch(recent: seq<SetHash>, members: map<SetHash, seq<Key>>): (r: seq<Proposal>) {
    if recent == [] then []
    else Vouch(recent[..|recent| - 1], members) +
         (var h := recent[|recent| - 1]; if h in members then [Proposal(h, members[h])] else [])
  }

  function HasMembers(members: map<SetHash, seq<Key>>): SetHash -> bool { h => h in members }

  /** Vouching is one proposal for each listed set whose members are held, in order. */
  lemma {:induction false} VouchEach(recent: seq<SetHash>, members: map<SetHash, seq<Key>>)
    ensures var held, sent := Keep(recent, HasMembers(members)), Vouch(recent, members);
      |sent| == |held| && forall i :: 0 <= i < |held| ==>
        held[i] in members && sent[i] == Proposal(held[i], members[held[i]])
  {
    if recent != [] {
      var front, last := recent[..|recent| - 1], recent[|recent| - 1];
      VouchEach(front, members);
      assert recent == front + [last];
      KeepAppend(front, [last], HasMembers(members));
      KeepStep([last], HasMembers(members));
      assert [last][1..] == [];
    }
  }

  function OnPeer(s: Round, v: Vote): (r: (Round, seq<Proposal>)) {
    var h := v.proposal.setHash;
    if h in s.done then
      (s, if h in s.doneMembers.m then [Proposal(h, s.doneMembers.m[h])] else [])
    else
      var byNode := s.peers.GetOr(h, Empty());
      (s.(peers := s.peers.Set(h, byNode.Set(v.nodeId, v.proposal.memberIds))), [])
  }

  function VotesFor(h: SetHash, order: seq<Node>, ids: map<Node, seq<Key>>): (r: seq<Vote>) {
    if order == [] then []
    else
      var n := order[|order| - 1];
      VotesFor(h, order[..|order| - 1], ids) + [Vote(n, Proposal(h, if n in ids then ids[n] else []))]
  }

  function VotesIn(order: seq<SetHash>, peers: map<SetHash, OrderedMap<Node, seq<Key>>>): (r: seq<Vote>) {
    if order == [] then []
    else
      var h := order[|order| - 1];
      VotesIn(order[..|order| - 1], peers) +
      (if h in peers then VotesFor(h, peers[h].order, peers[h].m) else [])
  }

  /** What node j proposed under h, if anything. */
  function Recorded(peers: map<SetHash, OrderedMap<Node, seq<Key>>>, h: SetHash, j: Node): Option<seq<Key>> {
    if h in peers && j in peers[h].m then Some(peers[h].m[j]) else None
  }

  /** What hearing a peer does: a resolved set is answered, when its members are held, and nothing changes; any other is
      recorded for the node that sent it, every other record stays, and nothing is sent. */
  ghost predicate PeerHeard(s: Round, r: Round, sent: seq<Proposal>, v: Vote) {
    var h := v.proposal.setHash;
    if h in s.done then r == s && sent == (if h in s.doneMembers.m then [Proposal(h, s.doneMembers.m[h])] else [])
    else
      && sent == [] && r == s.(peers := r.peers)
      && Recorded(r.peers.m, h, v.nodeId) == Some(v.proposal.memberIds)
      && forall g, j: Node :: (g, j) != (h, v.nodeId) ==> Recorded(r.peers.m, g, j) == Recorded(s.peers.m, g, j)
  }

  lemma PeerIsHeard(s: Round, v: Vote)
    ensures PeerHeard(s, OnPeer(s, v).0, OnPeer(s, v).1, v)
    ensures var h := v.proposal.setHash;
      h in s.done && h in s.doneMembers.m ==> OnPeer(s, v).1 == [Proposal(h, s.doneMembers.m[h])]
  {
  }

  lemma {:induction false} VotesForEach(h: SetHash, order: seq<Node>, ids: map<Node, seq<Key>>)
    requires forall n | n in order :: n in ids
    ensures var votes := VotesFor(h, order, ids);
      |votes| == |order| && forall i :: 0 <= i < |order| ==> votes[i] == Vote(order[i], Proposal(h, ids[order[i]]))
  {
    if order != [] { VotesForEach(h, order[..|order| - 1], ids); }
  }

  ghost predicate NotAfter(order: seq<SetHash>, g: SetHash, h: SetHash) {
    exists a: nat, b: nat :: a <= b < |order| && order[a] == g && order[b] == h
  }

  /** The votes under the listed digests, digest by digest. */
  ghost predicate ListedByDigest(votes: seq<Vote>, order: seq<SetHash>) {
    forall i, j :: 0 <= i <= j < |votes| ==> NotAfter(order, votes[i].proposal.setHash, votes[j].proposal.setHash)
  }

  lemma {:induction false} VotesAreRecords(order: seq<SetHash>, peers: map<SetHash, OrderedMap<Node, seq<Key>>>)
    requires forall h | h in order :: h in peers && peers[h].Valid()
    ensures ListedByDigest(VotesIn(order, peers), order)
    ensures forall v :: v in VotesIn(order, peers) <==>
      v.proposal.setHash in order && Recorded(peers, v.proposal.setHash, v.nodeId) == Some(v.proposal.memberIds)
  {
    if order != [] {
      var n := |order| - 1;
      var front, h := order[..n], order[n];
      assert order == front + [h];
      VotesAreRecords(front, peers);
      forall k | k in peers[h].order ensures k in peers[h].m { assert k in Elements(peers[h].order); }
      VotesForEach(h, peers[h].order, peers[h].m);
      var old_, more := VotesIn(front, peers), VotesFor(h, peers[h].order, peers[h].m);
      RecordsOfOne(h, peers[h], more);
      assert forall v :: v in old_ + more <==> v in old_ || v in more;
      ListedAppend(old_, more, front, h);
    }
  }

  lemma PeerRecords(peers: OrderedMap<SetHash, OrderedMap<Node, seq<Key>>>)
    requires peers.Valid() && forall h | h in peers.m :: peers.m[h].Valid()
    ensures ListedByDigest(VotesIn(peers.order, peers.m), peers.order)
    ensures forall v :: v in VotesIn(peers.order, peers.m) <==>
      Recorded(peers.m, v.proposal.setHash, v.nodeId) == Some(v.proposal.memberIds)
  {
    forall h | h in peers.order ensures h in peers.m { assert h in Elements(peers.order); }
    forall h | h in peers.m ensures h in peers.order { assert h in Elements(peers.order); }
    VotesAreRecords(peers.order, peers.m);
  }

  lemma RecordsOfOne(h: SetHash, byNode: OrderedMap<Node, seq<Key>>, votes: seq<Vote>)
    requires byNode.Valid() && |votes| == |byNode.order|
    requires forall i :: 0 <= i < |votes| ==>
      byNode.order[i] in byNode.m && votes[i] == Vote(byNode.order[i], Proposal(h, byNode.m[byNode.order[i]]))
    ensures forall v :: v in votes <==>
      v.proposal.setHash == h && v.nodeId in byNode.m && byNode.m[v.nodeId] == v.proposal.memberIds
  {
    forall v: Vote | v.proposal.setHash == h && v.nodeId in byNode.m && byNode.m[v.nodeId] == v.proposal.memberIds
      ensures v in votes
    {
      assert v.nodeId in Elements(byNode.order);
      var i :| 0 <= i < |byNode.order| && byNode.order[i] == v.nodeId;
      assert votes[i] == v;
    }
  }

  lemma ListedAppend(a: seq<Vote>, b: seq<Vote>, front: seq<SetHash>, h: SetHash)
    requires ListedByDigest(a, front) && forall i :: 0 <= i < |b| ==> b[i].proposal.setHash == h
    ensures ListedByDigest(a + b, front + [h])
  {
    var order, votes := front + [h], a + b;
    assert order[|front|] == h;
    forall i, j | 0 <= i <= j < |votes| ensures NotAfter(order, votes[i].proposal.setHash, votes[j].proposal.setHash) {
      if i < |a| {
        assert NotAfter(front, a[i].proposal.setHash, a[if j < |a| then j else i].proposal.setHash);
        var x: nat, y: nat :| x <= y < |front| && front[x] == a[i].proposal.setHash &&
          front[y] == a[if j < |a| then j else i].proposal.setHash;
        assert order[x] == front[x] && order[y] == front[y];
      }
    }
  }

  /** Drop the oldest vouched-for members until at most 4 * DONE_REBROADCAST remain, sparing recent sets. */
  function Prune(members: OrderedMap<SetHash, seq<Key>>, keys: seq<SetHash>,
        spare: seq<SetHash>): (r: OrderedMap<SetHash, seq<Key>>)
    ensures members.Valid() ==> r.Valid()
    ensures forall h | h in r.m :: h in members.m && r.m[h] == members.m[h]
    decreases keys
  {
    if keys == [] || |members.order| <= DONE_REBROADCAST * 4 then members
    else if keys[0] in spare then Prune(members, keys[1..], spare)
    else Prune(members.Delete(keys[0]), keys[1..], spare)
  }

  function MarkDone(s: Round, h: SetHash, ids: seq<Key>): (r: Round) {
    var members := s.doneMembers.Set(h, ids);
    var order := if h in s.done then s.doneOrder else s.doneOrder + [h];
    var done := s.done + {h};
    var evict := h !in s.done && |order| > DONE_CAP;
    var members' := if evict then members.Delete(order[0]) else members;
    var done' := if evict then done - {order[0]} else done;
    var order' := if evict then order[1..] else order;
    var members'' := if |members'.order| > DONE_REBROADCAST * 4
                     then Prune(members', members'.order, Last(order', DONE_REBROADCAST * 4)) else members';
    Round(s.peers.Delete(h), done', order', members'')
  }

  // ---- what resolving a set leaves ----

  /** The resolved sets are the listed ones, each once, at most 4096; members are held for at most twelve of them, and
      for each of the twelve most recent. */
  ghost predicate Remembers(s: Round) {
    && Distinct(s.doneOrder) && Elements(s.doneOrder) == s.done && |s.doneOrder| <= 4096
    && s.doneMembers.Valid() && s.doneMembers.m.Keys <= s.done && |s.doneMembers.order| <= 12
    && forall h | h in Last(s.doneOrder, 12) :: h in s.doneMembers.m
  }

  /** Pruning keeps what it spares, and stops at twelve unless all that is left is spared. */
  lemma {:induction false} PruneKeeps(members: OrderedMap<SetHash, seq<Key>>, keys: seq<SetHash>, spare: seq<SetHash>)
    requires members.Valid() && forall h | h in members.order :: h in keys || h in spare
    ensures var r := Prune(members, keys, spare);
      && r.Valid() && (forall h | h in members.m && h in spare :: h in r.m)
      && (|r.order| <= 12 || forall h | h in r.order :: h in spare)
    decreases keys
  {
    if keys == [] || |members.order| <= DONE_REBROADCAST * 4 {
    } else {
      assert keys == [keys[0]] + keys[1..];
      if keys[0] in spare {
        PruneKeeps(members, keys[1..], spare);
      } else {
        var less := members.Delete(keys[0]);
        KeepElements(members.order, Except(keys[0]));
        PruneKeeps(less, keys[1..], spare);
      }
    }
  }

  lemma ShorterThan(order: seq<SetHash>, spare: seq<SetHash>)
    requires Distinct(order) && forall h | h in order :: h in spare
    ensures |order| <= |Elements(spare)| <= |spare|
  {
    DistinctMultiset(order);
    assert Elements(order) <= Elements(spare);
    SubsetSize(Elements(order), Elements(spare));
    ElementsAtMost(spare);
  }

  lemma {:induction false} ElementsAtMost<T>(s: seq<T>)
    ensures |Elements(s)| <= |s|
  {
    if s != [] {
      ElementsAtMost(s[1..]);
      assert s == [s[0]] + s[1..];
      assert Elements(s) == {s[0]} + Elements(s[1..]);
    }
  }

  /** After the step h is the last resolved set, with its members held; its tally is dropped and the others stay; and
      so do the members of the other recent sets. */
  ghost predicate ResolvedLast(r: Round, s: Round, h: SetHash, ids: seq<Key>) {
    && r.doneOrder == Appended(s.doneOrder, h) && h in r.done
    && h in r.doneMembers.m && r.doneMembers.m[h] == ids
    && r.peers.m == s.peers.m - {h}
    && forall g | g in Last(r.doneOrder, 12) && g != h ::
         g in s.doneMembers.m && g in r.doneMembers.m && r.doneMembers.m[g] == s.doneMembers.m[g]
  }

  /** The list of resolved sets after one more, the oldest dropped past 4096. */
  function Appended(order: seq<SetHash>, h: SetHash): seq<SetHash> {
    if |order| >= 4096 then (order + [h])[1..] else order + [h]
  }

  lemma AppendedFacts(order: seq<SetHash>, done: set<SetHash>, h: SetHash)
    requires Distinct(order) && Elements(order) == done && |order| <= 4096 && h !in done
    ensures var r := Appended(order, h);
      && Distinct(r) && |r| <= 4096 && r != [] && r[|r| - 1] == h
      && Elements(r) == (if |order| >= 4096 then done + {h} - {order[0]} else done + {h})
      && (forall g | g in Last(r, 12) && g != h :: g in Last(order, 12))
  {
    var whole := order + [h];
    assert h !in order;
    assert Elements(whole) == done + {h};
    if |order| >= 4096 {
      assert whole == [whole[0]] + whole[1..];
      assert Elements(whole) == {whole[0]} + Elements(whole[1..]);
      assert whole[0] !in whole[1..];
    }
    LastAppended(order, h);
  }

  lemma LastAppended(order: seq<SetHash>, h: SetHash)
    requires |order| <= 4096
    ensures forall g | g in Last(Appended(order, h), 12) && g != h :: g in Last(order, 12)
  {
    var r := Appended(order, h);
    var a, b := Last(r, 12), Last(order, 12);
    forall i | 0 <= i < |a| && a[i] != h ensures a[i] in b {
      if |order| < 12 {
        assert a == order + [h];
      } else {
        assert a[i] == order[|order| - 11 + i] == b[i + 1];
      }
    }
  }

  /** A newly resolved set is remembered last and its members are held; its tally is dropped and the others stay; the
      members of the other recent sets stay held. */
  lemma MarkDoneRemembers(s: Round, h: SetHash, ids: seq<Key>)
    requires Remembers(s) && h !in s.done
    ensures Remembers(MarkDone(s, h, ids)) && ResolvedLast(MarkDone(s, h, ids), s, h, ids)
  {
    hide Prune, Appended;
    AppendedFacts(s.doneOrder, s.done, h);
    var order, spare := Appended(s.doneOrder, h), Last(Appended(s.doneOrder, h), 12);
    var members, done := Marked(s, h, ids);
    forall g | g in Last(order, 12) ensures g in members.m && (g != h ==> members.m[g] == s.doneMembers.m[g]) {
      assert g in order;
      assert g in Elements(order);
    }
    PruneKeeps(members, members.order, spare);
    var r := MarkDone(s, h, ids);
    assert r.doneMembers == if |members.order| > 12 then Prune(members, members.order, spare) else members;
    if |r.doneMembers.order| > 12 { ShorterThan(r.doneMembers.order, spare); }
    assert h in spare by { assert order[|order| - 1] == spare[|spare| - 1]; }
  }

  /** The members held, before pruning, and the resolved sets. */
  lemma Marked(s: Round, h: SetHash, ids: seq<Key>) returns (members: OrderedMap<SetHash, seq<Key>>, done: set<SetHash>)
    requires Remembers(s) && h !in s.done
    ensures members.Valid() && done == Elements(Appended(s.doneOrder, h)) && members.m.Keys <= done
    ensures forall g | g in done && g != h && g in s.doneMembers.m ::
      g in members.m && members.m[g] == s.doneMembers.m[g]
    ensures h in members.m && members.m[h] == ids
    ensures var r := MarkDone(s, h, ids);
      && r.done == done && r.doneOrder == Appended(s.doneOrder, h)
      && r.doneMembers == if |members.order| > DONE_REBROADCAST * 4
                          then Prune(members, members.order, Last(r.doneOrder, DONE_REBROADCAST * 4)) else members
  {
    hide Prune;
    AppendedFacts(s.doneOrder, s.done, h);
    members := s.doneMembers.Set(h, ids);
    done := s.done + {h};
    if |s.doneOrder| >= 4096 {
      members := members.Delete((s.doneOrder + [h])[0]);
      done := done - {s.doneOrder[0]};
      assert s.doneOrder[0] in Elements(s.doneOrder);
    }
  }

  /** Carry out a decision. */
  function Act(s: Round, l: Ledger, cand: seq<Key>, d: Decision): (r: Outcome) {
    match d
    case Seal(h) => Outcome(MarkDone(s, h, cand), SealSet(l, cand), Sealed(h))
    case Adopt(h, ids) =>
      (match AdoptSet(l, h, ids)
       case Some(l') => Outcome(MarkDone(s, h, ids), l', Adopted(h))
       case None => Outcome(s, l, StallAdopt(h)))
    case Stall => Outcome(s, l, Stalled)
  }

  /** Count the votes for a candidate and carry out what they decide. */
  function Conclude(s: Round, l: Ledger, cand: seq<Key>, quorum: nat): (r: Outcome) {
    Act(s, l, cand, Decide(Some(Proposal(HashOf(cand), cand)), VotesIn(s.peers.order, s.peers.m), quorum))
  }

  function Tick(s: Round, l: Ledger, chunkSize: nat, quorum: nat): (r: TickResult)
    requires chunkSize > 0
  {
    var vouched := Vouch(Last(s.doneOrder, DONE_REBROADCAST), s.doneMembers.m);
    var cand := CandidatePrefix(l.pool, chunkSize, 1);
    if cand == [] || HashOf(cand) in s.done then TickResult(Outcome(s, l, Idle), vouched)
    else TickResult(Conclude(s, l, cand, quorum), vouched + [Proposal(HashOf(cand), cand)])
  }

  class SealRoundManager {
    var peers: OrderedMap<SetHash, OrderedMap<Node, seq<Key>>>
    var done: set<SetHash>
    var doneOrder: seq<SetHash>
    var doneMembers: OrderedMap<SetHash, seq<Key>>
    var ledger: Ledger          // the injected getItems / sealSet / adoptSet
    var outbox: seq<Proposal>   // what the injected broadcast was handed
    const chunkSize: nat
    const quorum: nat

    ghost function State(): Round reads this`peers, this`done, this`doneOrder, this`doneMembers {
      Round(peers, done, doneOrder, doneMembers)
    }

    ghost predicate Valid() reads this`peers, this`doneMembers {
      chunkSize > 0 && peers.Valid() && doneMembers.Valid() && forall h | h in peers.m :: peers.m[h].Valid()
    }

    constructor (pool: seq<Key>, chunkSize: nat, quorum: nat)
      requires chunkSize > 0
      ensures Valid() && State() == NewRound() && ledger == Ledger(pool, []) && outbox == []
      ensures this.chunkSize == chunkSize && this.quorum == quorum
    {
      peers, done, doneOrder, doneMembers := Empty(), {}, [], Empty();
      ledger, outbox := Ledger(pool, []), [];
      this.chunkSize, this.quorum := chunkSize, quorum;
    }

    method Broadcast(p: Proposal)
      modifies this`outbox
      ensures outbox == old(outbox) + [p]
    {
      outbox := outbox + [p];
    }

    /** One announcement for each of the last three resolved sets whose members are held, oldest first. */
    method RebroadcastDone()
      modifies this`outbox
      ensures outbox == old(outbox) + Vouch(Last(doneOrder, DONE_REBROADCAST), doneMembers.m)
      ensures var held := Keep(doneOrder[if |doneOrder| <= 3 then 0 else |doneOrder| - 3..], HasMembers(doneMembers.m));
        && |outbox| == |old(outbox)| + |held| && old(outbox) <= outbox
        && (forall i :: 0 <= i < |held| ==>
              held[i] in doneMembers.m && outbox[|old(outbox)| + i] == Proposal(held[i], doneMembers.m[held[i]]))
    {
      VouchEach(Last(doneOrder, DONE_REBROADCAST), doneMembers.m);
      var recent := Last(doneOrder, DONE_REBROADCAST);
      var i := 0;
      while i < |recent|
        invariant 0 <= i <= |recent|
        invariant outbox == old(outbox) + Vouch(recent[..i], doneMembers.m)
      {
        assert recent[..i + 1][..i] == recent[..i];
        if recent[i] in doneMembers.m { Broadcast(Proposal(recent[i], doneMembers.m[recent[i]])); }
        i := i + 1;
      }
      assert recent[..i] == recent;
    }

    method OnPeerProposal(v: Vote)
      requires Valid()
      modifies this`peers, this`outbox
      ensures Valid()
      ensures State() == OnPeer(old(State()), v).0
      ensures outbox == old(outbox) + OnPeer(old(State()), v).1
      ensures v.proposal.setHash in old(done) && v.proposal.setHash in old(doneMembers).m ==>
        outbox == old(outbox) + [Proposal(v.proposal.setHash, old(doneMembers).m[v.proposal.setHash])]
      ensures old(outbox) <= outbox && PeerHeard(old(State()), State(), outbox[|old(outbox)|..], v)
    {
      PeerIsHeard(State(), v);
      hide PeerHeard, OnPeer;
      ghost var sent := OnPeer(State(), v).1;
      TakePeer(v);
      assert outbox[|old(outbox)|..] == sent;
    }

    /** Answer for a resolved set, or record the vote. */
    method TakePeer(v: Vote)
      requires Valid()
      modifies this`peers, this`outbox
      ensures Valid()
      ensures State() == OnPeer(old(State()), v).0
      ensures outbox == old(outbox) + OnPeer(old(State()), v).1
    {
      var h := v.proposal.setHash;
      if h in done {
        if h in doneMembers.m { Broadcast(Proposal(h, doneMembers.m[h])); }
        return;
      }
      if h !in peers.m { peers := peers.Set(h, Empty()); }
      peers := peers.Set(h, peers.m[h].Set(v.nodeId, v.proposal.memberIds));
      assert peers.m == old(peers).m[h := old(peers).GetOr(h, Empty()).Set(v.nodeId, v.proposal.memberIds)];
    }

    static method CollectFor(h: SetHash, byNode: OrderedMap<Node, seq<Key>>) returns (votes: seq<Vote>)
      requires byNode.Valid()
      ensures votes == VotesFor(h, byNode.order, byNode.m)
    {
      votes := [];
      var j := 0;
      while j < |byNode.order|
        invariant 0 <= j <= |byNode.order|
        invariant votes == VotesFor(h, byNode.order[..j], byNode.m)
      {
        assert byNode.order[..j + 1][..j] == byNode.order[..j];
        assert byNode.order[j] in Elements(byNode.order);
        votes := votes + [Vote(byNode.order[j], Proposal(h, byNode.m[byNode.order[j]]))];
        j := j + 1;
      }
      assert byNode.order[..j] == byNode.order;
    }

    method CollectVotes() returns (votes: seq<Vote>)
      requires Valid()
      ensures votes == VotesIn(peers.order, peers.m)
      ensures forall v :: v in votes <==> Recorded(peers.m, v.proposal.setHash, v.nodeId) == Some(v.proposal.memberIds)
      ensures ListedByDigest(votes, peers.order)
    {
      hide ListedByDigest, Recorded;
      PeerRecords(peers);
      votes := [];
      var order, m := peers.order, peers.m;
      var i := 0;
      while i < |order|
        invariant 0 <= i <= |order|
        invariant votes == VotesIn(order[..i], m)
      {
        assert order[..i + 1][..i] == order[..i];
        var h := order[i];
        assert h in Elements(order);
        var mine := CollectFor(h, m[h]);
        votes := votes + mine;
        i := i + 1;
      }
      assert order[..i] == order;
    }

    static method PruneMembers(members: OrderedMap<SetHash, seq<Key>>, spare: seq<SetHash>)
        returns (r: OrderedMap<SetHash, seq<Key>>)
      requires members.Valid()
      ensures r.Valid() && r == Prune(members, members.order, spare)
    {
      var keys := members.order;
      r := members;
      var i := 0;
      while i < |keys| && |r.order| > DONE_REBROADCAST * 4
        invariant 0 <= i <= |keys|
        invariant r.Valid()
        invariant Prune(members, keys, spare) == Prune(r, keys[i..], spare)
      {
        assert keys[i..][1..] == keys[i + 1..];
        if keys[i] !in spare { r := r.Delete(keys[i]); }
        i := i + 1;
      }
    }

    method DoMarkDone(h: SetHash, ids: seq<Key>)
      requires Valid()
      modifies this`peers, this`done, this`doneOrder, this`doneMembers
      ensures Valid()
      ensures State() == MarkDone(old(State()), h, ids)
      ensures old(Remembers(State())) && h !in old(done) ==>
        Remembers(State()) && ResolvedLast(State(), old(State()), h, ids)
    {
      if Remembers(State()) && h !in done { MarkDoneRemembers(State(), h, ids); }
      peers := peers.Delete(h);
      doneMembers := doneMembers.Set(h, ids);
      if h !in done {
        done, doneOrder := done + {h}, doneOrder + [h];
        if |doneOrder| > DONE_CAP {
          var oldest := doneOrder[0];
          doneOrder, done, doneMembers := doneOrder[1..], done - {oldest}, doneMembers.Delete(oldest);
        }
      }
      if |doneMembers.order| > DONE_REBROADCAST * 4 {
        doneMembers := PruneMembers(doneMembers, Last(doneOrder, DONE_REBROADCAST * 4));
      }
      assert done == MarkDone(old(State()), h, ids).done;
    }

    method DoTick() returns (action: Action)
      requires Valid()
      modifies this
      ensures Valid()
      ensures var r := Tick(old(State()), old(ledger), chunkSize, quorum);
              Outcome(State(), ledger, action) == r.outcome && outbox == old(outbox) + r.sent
      ensures var cand := CandidatePrefix(old(ledger.pool), chunkSize, 1);
        if cand == [] || HashOf(cand) in old(done)
        then action == Idle && State() == old(State()) && ledger == old(ledger)
        else !action.Idle? && outbox != [] && outbox[|outbox| - 1] == Proposal(HashOf(cand), cand)
    {
      hide Vouch, Conclude, CandidatePrefix, Keep;
      RebroadcastDone();
      var cand := CandidatePrefix(ledger.pool, chunkSize, 1);
      if cand == [] || HashOf(cand) in done { return Idle; }
      action := Agree(cand);
    }

    /** Announce the candidate, count the votes and carry out what they decide. */
    method Agree(cand: seq<Key>) returns (action: Action)
      requires Valid()
      modifies this
      ensures Valid()
      ensures Outcome(State(), ledger, action) == Conclude(old(State()), old(ledger), cand, quorum)
      ensures outbox == old(outbox) + [Proposal(HashOf(cand), cand)] && !action.Idle?
    {
      var mine := Proposal(HashOf(cand), cand);
      Broadcast(mine);
      var votes := CollectVotes();
      var decision := DecideRound(Some(mine), votes, quorum);
      action := CarryOut(cand, decision);
    }

    method CarryOut(cand: seq<Key>, d: Decision) returns (action: Action)
      requires Valid()
      modifies this`peers, this`done, this`doneOrder, this`doneMembers, this`ledger
      ensures Valid()
      ensures Outcome(State(), ledger, action) == Act(old(State()), old(ledger), cand, d)
      ensures d.Stall? ==> action == Stalled
      ensures d.Seal? ==> action == Sealed(d.setHash)
      ensures d.Adopt? ==>
        action == if CanAdopt(old(ledger.pool), d.setHash, d.memberIds) then Adopted(d.setHash)
        else StallAdopt(d.setHash)
      ensures action.Stalled? || action.StallAdopt? ==> State() == old(State()) && ledger == old(ledger)
      // Sealing and adopting move keys from the pool to one new face, and neither lose nor repeat any.
      ensures Distinct(old(ledger.pool)) && Distinct(cand) ==> Conserved(old(ledger), ledger)
    {
      if Distinct(ledger.pool) && Distinct(cand) {
        SealConserves(ledger, cand);
        if d.Adopt? {
          WithinElements(ledger.pool, d.memberIds);
          SealConserves(ledger, Within(ledger.pool, d.memberIds));
        }
      }
      hide Conserved;
      match d {
        case Seal(h) =>
          ledger := SealSet(ledger, cand);
          DoMarkDone(h, cand);
          return Sealed(h);
        case Adopt(h, ids) =>
          AdoptSetIff(ledger, h, ids);
          var adopted := AdoptSet(ledger, h, ids);
          if adopted.Some? {
            ledger := adopted.value;
            DoMarkDone(h, ids);
            return Adopted(h);
          }
          return StallAdopt(h);
        case Stall =>
          return Stalled;
      }
    }
  }
}
