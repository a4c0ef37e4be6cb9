/** The seal-boundary policy: which set a node proposes, how a set is digested, and what a count of
    proposals decides. */
module SealAgreement {
  import opened Ordering
  import opened JsMap

  /** A content key: a block hash at level 1, a face root at level 2. */
  type Key = nat
  type Node = nat

  /** sha256 over the sorted keys, idealised as collision-free: the digest is the sorted keys. */
  datatype SetHash = SetHash(keys: seq<Key>)

  datatype Proposal = Proposal(setHash: SetHash, memberIds: seq<Key>)
  datatype Vote = Vote(nodeId: Node, proposal: Proposal)
  datatype Decision = Seal(setHash: SetHash) | Adopt(setHash: SetHash, memberIds: seq<Key>) | Stall

  function Min(a: nat, b: nat): nat { if a <= b then a else b }
  function Max(a: nat, b: nat): nat { if a >= b then a else b }

  /** How many items a candidate takes: whole chunks only, and no more than maxChunks of them. */
  function TakeCount(n: nat, chunkSize: nat, maxChunks: nat): (take: nat)
    requires chunkSize > 0
    ensures take <= n
  {
    var chunks := Min(n / chunkSize, Max(1, maxChunks));
    FloorTimes(n, chunkSize);
    MulAtMost(chunkSize, chunks, n / chunkSize);
    chunks * chunkSize
  }

  /** The lowest complete chunks of the pool, in key order. */
  function CandidatePrefix(items: seq<Key>, chunkSize: nat, maxChunks: nat): (r: seq<Key>)
    requires chunkSize > 0
  {
    var sorted := Sort(items);
    sorted[..TakeCount(|sorted|, chunkSize, maxChunks)]
  }

  function HashOf(items: seq<Key>): SetHash { SetHash(Sort(items)) }

  /** Strict majority of the configured leads. */
  function SealQuorumFrom(configuredLeads: nat): (q: nat)
    ensures 2 * q > configuredLeads
    ensures configuredLeads > 0 ==> 2 * (q - 1) <= configuredLeads
    ensures configuredLeads > 0 ==> q <= configuredLeads
  {
    Max(1, configuredLeads) / 2 + 1
  }

  // ---- properties of the candidate ----

  /** With at most m chunks the candidate is the lowest whole chunks there are, no more than m (and at least one
      allowed): sorted, all of the pool, with nothing smaller left out. */
  lemma CandidateChunks(items: seq<Key>, c: nat, m: nat)
    requires c > 0 && Distinct(items)
    ensures var x := CandidatePrefix(items, c, m);
      && Sorted(x) && Distinct(x) && (forall k | k in x :: k in items)
      && (forall k, l | k in x && l in items && l !in x :: k < l)
      && |x| % c == 0 && |x| / c <= (if m < 1 then 1 else m)
      && (|x| / c < (if m < 1 then 1 else m) ==> |items| - |x| < c)
  {
    SortSorts(items);
    SortElements(items);
    SortDistinct(items);
    var s, x := Sort(items), CandidatePrefix(items, c, m);
    var chunks := Min(|items| / c, Max(1, m));
    FloorTimes(|items|, c);
    MulAtMost(c, chunks, |items| / c);
    DivUnique(|x|, c, chunks, 0);
    forall k, l | k in x && l in items && l !in x ensures k < l {
      assert l in s;
      var i :| 0 <= i < |x| && x[i] == k;
      var j :| 0 <= j < |s| && s[j] == l;
      assert forall n | 0 <= n < |x| :: s[n] == x[n] && x[n] in x;
      assert s[i] != s[j];
    }
  }

  /** With one chunk the candidate is the chunk-size lowest keys, or nothing. */
  lemma CandidateOne(items: seq<Key>, c: nat)
    requires c > 0
    ensures |Sort(items)| == |items|
    ensures CandidatePrefix(items, c, 1) == if |items| < c then [] else Sort(items)[..c]
  {
    SortSorts(items);
    FloorTimes(|items|, c);
  }

  /** The candidate is empty exactly below one chunk; otherwise it is c keys of the pool, sorted, every other key above
      the largest. */
  lemma CandidateShape(items: seq<Key>, c: nat)
    requires c > 0 && Distinct(items)
    ensures var x := CandidatePrefix(items, c, 1);
      && (x == [] <==> |items| < c)
      && (x != [] ==>
            && |x| == c && Sorted(x) && Distinct(x)
            && (forall k | k in x :: k in items)
            && (forall k | k in items && k !in x :: x[c - 1] < k))
  {
    CandidateOne(items, c);
    SortSorts(items);
    SortElements(items);
    SortDistinct(items);
    var s := Sort(items);
    if |items| >= c {
      forall k | k in items && k !in s[..c] ensures s[c - 1] < k {
        assert k in s;
        var i :| 0 <= i < |s| && s[i] == k;
        assert forall j | 0 <= j < c :: s[j] == s[..c][j] && s[j] in s[..c];
        assert s[c - 1] <= s[i] && s[c - 1] != s[i];
      }
    }
  }

  /** The shape determines the candidate, so nodes holding pools with the same lowest keys agree on it. */
  lemma CandidateUnique(items: seq<Key>, c: nat, x: seq<Key>)
    requires c > 0 && Distinct(items) && |x| == c && Sorted(x) && Distinct(x)
    requires forall k | k in x :: k in items
    requires forall k | k in items && k !in x :: x[c - 1] < k
    ensures |items| >= c && CandidatePrefix(items, c, 1) == x
  {
    DistinctMultiset(x);
    DistinctMultiset(items);
    assert Elements(x) <= Elements(items);
    SubsetSize(Elements(x), Elements(items));
    var rest := Without(items, x);
    WithoutElements(items, x);
    SortSorts(rest);
    SortElements(rest);
    SortDistinct(rest);
    var whole := x + Sort(rest);
    forall i, j | 0 <= i < j < |whole| ensures whole[i] <= whole[j] && whole[i] != whole[j] {
      if j >= c && i < c { assert whole[j] in Sort(rest); assert whole[j] in rest; assert whole[i] <= x[c - 1]; }
    }
    assert Elements(whole) == Elements(items) by {
      forall k | k in items ensures k in whole { if k !in x { assert k in rest; assert k in Sort(rest); } }
      forall k | k in whole ensures k in items { if k !in x { assert k in Sort(rest); assert k in rest; } }
    }
    SortOfSameSet(whole, items);
    SortOfSorted(whole);
    CandidateOne(items, c);
    SortSorts(items);
    assert whole[..c] == x;
  }

  /** The bounded prefix is stable against arrivals above it. */
  lemma CandidateStable(items: seq<Key>, c: nat, k: Key)
    requires c > 0 && Distinct(items) && |items| >= c && k !in items
    requires |CandidatePrefix(items, c, 1)| == c && k > CandidatePrefix(items, c, 1)[c - 1]
    ensures CandidatePrefix(items + [k], c, 1) == CandidatePrefix(items, c, 1)
  {
    CandidateShape(items, c);
    CandidateUnique(items + [k], c, CandidatePrefix(items, c, 1));
  }

  /** Removing keys outside the candidate leaves it alone. */
  lemma CandidateSurvives(items: seq<Key>, c: nat, gone: seq<Key>)
    requires c > 0 && Distinct(items) && |items| >= c
    requires forall k | k in CandidatePrefix(items, c, 1) :: k !in gone
    ensures CandidatePrefix(Without(items, gone), c, 1) == CandidatePrefix(items, c, 1)
  {
    CandidateShape(items, c);
    WithoutElements(items, gone);
    CandidateUnique(Without(items, gone), c, CandidatePrefix(items, c, 1));
  }

  /** Two pools holding the same keys propose the same set, whatever order the keys arrived in. */
  lemma CandidateOrderFree(a: seq<Key>, b: seq<Key>, c: nat, m: nat)
    requires c > 0 && multiset(a) == multiset(b)
    ensures CandidatePrefix(a, c, m) == CandidatePrefix(b, c, m)
  {
    SortOfPermutation(a, b);
  }

  lemma HashKeys(items: seq<Key>)
    ensures HashOf(items).keys == Sort(items)
  {
  }

  /** Equal digest exactly when equal contents. */
  lemma HashAgrees(a: seq<Key>, b: seq<Key>)
    ensures HashOf(a) == HashOf(b) <==> multiset(a) == multiset(b)
  {
    SortSorts(a);
    SortSorts(b);
    if multiset(a) == multiset(b) { SortOfPermutation(a, b); }
  }

  // ---- the decision ----

  function BallotsOf(mine: Option<Proposal>, peers: seq<Vote>): (r: seq<Proposal>) {
    (if mine.Some? then [mine.value] else []) + seq(|peers|, i requires 0 <= i < |peers| => peers[i].proposal)
  }

  /** How many ballots name h. */
  function Tally(ballots: seq<Proposal>, h: SetHash): (r: nat)
    ensures r <= |ballots|
  {
    if ballots == [] then 0
    else Tally(ballots[..|ballots| - 1], h) + (if ballots[|ballots| - 1].setHash == h then 1 else 0)
  }

  function VotesOf(ballots: seq<Proposal>): (r: OrderedMap<SetHash, nat>)
    ensures r.Valid()
  {
    if ballots == [] then Empty()
    else
      var v := VotesOf(ballots[..|ballots| - 1]);
      var h := ballots[|ballots| - 1].setHash;
      v.Set(h, v.GetOr(h, 0) + 1)
  }

  /** The first digest in vote order with the highest count. */
  function WinnerAmong(order: seq<SetHash>, votes: map<SetHash, nat>): (r: Option<SetHash>)
    requires forall h | h in order :: h in votes
    ensures r.Some? ==> r.value in order
  {
    if order == [] then None
    else
      var last := order[|order| - 1];
      var w := WinnerAmong(order[..|order| - 1], votes);
      if votes[last] > (if w.Some? then votes[w.value] else 0) then Some(last) else w
  }

  function FirstFor(ballots: seq<Proposal>, h: SetHash): (r: Option<Proposal>) {
    if ballots == [] then None
    else if ballots[0].setHash == h then Some(ballots[0])
    else FirstFor(ballots[1..], h)
  }

  function Decide(mine: Option<Proposal>, peers: seq<Vote>, quorum: nat): (d: Decision) {
    var ballots := BallotsOf(mine, peers);
    var votes := VotesOf(ballots);
    assert forall h | h in votes.order :: h in Elements(votes.order);
    match WinnerAmong(votes.order, votes.m)
    case None => Stall
    case Some(win) =>
      if votes.m[win] < quorum then Stall
      else if mine.Some? && win == mine.value.setHash then Seal(win)
      else match FirstFor(ballots, win)
        case None => Adopt(win, [])
        case Some(p) => Adopt(win, p.memberIds)
  }

  lemma {:induction false} VotesAreTallies(ballots: seq<Proposal>, h: SetHash)
    ensures VotesOf(ballots).GetOr(h, 0) == Tally(ballots, h)
    ensures h in VotesOf(ballots).m <==> Tally(ballots, h) > 0
  {
    if ballots != [] {
      VotesAreTallies(ballots[..|ballots| - 1], h);
    }
  }

  lemma {:induction false} WinnerIsHighest(order: seq<SetHash>, votes: map<SetHash, nat>, h: SetHash)
    requires forall g | g in order :: g in votes
    requires h in order && votes[h] > 0
    ensures WinnerAmong(order, votes).Some? && votes[h] <= votes[WinnerAmong(order, votes).value]
  {
    var front, last := order[..|order| - 1], order[|order| - 1];
    assert order == front + [last];
    if h in front { WinnerIsHighest(front, votes, h); } else { assert h == last; }
  }

  /** The votes map holds exactly the tallies, and lists each named digest. */
  lemma VotesTable(ballots: seq<Proposal>)
    ensures var votes := VotesOf(ballots);
      && (forall h | h in votes.order :: h in votes.m && votes.m[h] == Tally(ballots, h) > 0)
      && (forall h | Tally(ballots, h) > 0 :: h in votes.order)
  {
    var votes := VotesOf(ballots);
    forall h | h in votes.order ensures h in votes.m && votes.m[h] == Tally(ballots, h) > 0 {
      assert h in Elements(votes.order);
      VotesAreTallies(ballots, h);
    }
    forall h | Tally(ballots, h) > 0 ensures h in votes.order {
      VotesAreTallies(ballots, h);
      assert h in Elements(votes.order);
    }
  }

  /** p is the first ballot for its digest. */
  ghost predicate FirstAt(ballots: seq<Proposal>, p: Proposal, i: nat) {
    i < |ballots| && ballots[i] == p && forall k :: 0 <= k < i ==> ballots[k].setHash != p.setHash
  }

  ghost predicate FirstOf(ballots: seq<Proposal>, p: Proposal) { exists i: nat :: FirstAt(ballots, p, i) }

  /** h has not been named up to place i. */
  ghost predicate NotYet(ballots: seq<Proposal>, i: int, h: SetHash) {
    forall k :: 0 <= k <= i && k < |ballots| ==> ballots[k].setHash != h
  }

  /** Digests are listed in the order of their first ballots. */
  lemma {:induction false} FirstVotedFirst(ballots: seq<Proposal>, i: nat, w: SetHash) returns (a: nat, b: nat)
    requires i < |ballots| && NotYet(ballots, i, w) && Tally(ballots, w) > 0
    ensures var order := VotesOf(ballots).order; a < b < |order| && order[a] == ballots[i].setHash && order[b] == w
    decreases |ballots|
  {
    var n := |ballots| - 1;
    var front := ballots[..n];
    if Tally(front, w) > 0 {
      if i < n {
        a, b := FirstVotedFirst(front, i, w);
      } else {
        NamedBefore(front, w);
        assert false;
      }
    } else {
      VotesTable(front);
      assert i < n;
      TallyOfNamed(front, i);
      var order := VotesOf(front).order;
      VotesAreTallies(front, w);
      a :| 0 <= a < |order| && order[a] == ballots[i].setHash;
      b := |order|;
    }
  }

  /** What has a ballot is named at some place. */
  lemma {:induction false} NamedBefore(ballots: seq<Proposal>, w: SetHash)
    requires Tally(ballots, w) > 0
    ensures exists k :: 0 <= k < |ballots| && ballots[k].setHash == w
  {
    var n := |ballots| - 1;
    if ballots[n].setHash != w {
      NamedBefore(ballots[..n], w);
      var k :| 0 <= k < n && ballots[..n][k].setHash == w;
      assert ballots[k].setHash == w;
    }
  }

  lemma {:induction false} TallyOfNamed(ballots: seq<Proposal>, i: nat)
    requires i < |ballots|
    ensures Tally(ballots, ballots[i].setHash) > 0
  {
    var n := |ballots| - 1;
    if i < n {
      TallyOfNamed(ballots[..n], i);
      assert ballots[..n][i] == ballots[i];
    }
  }

  /** The winner beats every digest listed before it. */
  lemma {:induction false} WinnerBeatsEarlier(order: seq<SetHash>, votes: map<SetHash, nat>, a: nat, b: nat)
    requires (forall h | h in order :: h in votes) && Distinct(order) && a < b < |order|
    requires WinnerAmong(order, votes) == Some(order[b])
    ensures votes[order[a]] < votes[order[b]]
  {
    var front, last := order[..|order| - 1], order[|order| - 1];
    if b < |order| - 1 {
      assert front[b] == order[b] && order[b] != last;
      WinnerBeatsEarlier(front, votes, a, b);
    } else {
      assert order[a] == front[a];
      if votes[order[a]] > 0 { WinnerIsHighest(front, votes, order[a]); }
    }
  }

  lemma WinnerIsFirst(ballots: seq<Proposal>)
    ensures var votes := VotesOf(ballots);
      && (forall h | h in votes.order :: h in votes.m)
      && var w := WinnerAmong(votes.order, votes.m);
         w.Some? ==> forall i :: 0 <= i < |ballots| && NotYet(ballots, i, w.value) ==>
           Tally(ballots, ballots[i].setHash) < Tally(ballots, w.value)
  {
    VotesTable(ballots);
    var votes := VotesOf(ballots);
    var w := WinnerAmong(votes.order, votes.m);
    if w.Some? {
      forall i | 0 <= i < |ballots| && NotYet(ballots, i, w.value)
        ensures Tally(ballots, ballots[i].setHash) < Tally(ballots, w.value)
      {
        var a, b := FirstVotedFirst(ballots, i, w.value);
        WinnerBeatsEarlier(votes.order, votes.m, a, b);
      }
    }
  }

  /** The order of the ballots breaks ties: whatever was named before the winner has fewer ballots, and the members of
      an adopted set are those its first ballot names. */
  lemma DecideBreaksTies(mine: Option<Proposal>, peers: seq<Vote>, quorum: nat)
    requires quorum > 0
    ensures var ballots := BallotsOf(mine, peers); var d := Decide(mine, peers, quorum);
      && (!d.Stall? ==> forall i :: 0 <= i < |ballots| && NotYet(ballots, i, d.setHash) ==>
            Tally(ballots, ballots[i].setHash) < Tally(ballots, d.setHash))
      && (d.Adopt? ==> FirstOf(ballots, Proposal(d.setHash, d.memberIds)))
  {
    var ballots := BallotsOf(mine, peers);
    WinnerIsFirst(ballots);
    VotesTable(ballots);
    var d := Decide(mine, peers, quorum);
    if !d.Stall? { FirstForFinds(ballots, d.setHash); }
  }

  lemma BallotFromVote(mine: Option<Proposal>, peers: seq<Vote>, p: Proposal)
    requires p in BallotsOf(mine, peers) && !(mine.Some? && p.setHash == mine.value.setHash)
    ensures exists v :: v in peers && v.proposal == p
  {
    var ballots := BallotsOf(mine, peers);
    var i :| 0 <= i < |ballots| && ballots[i] == p;
    var o := if mine.Some? then 1 else 0;
    assert i >= o;
    assert peers[i - o] in peers && peers[i - o].proposal == p;
  }

  /** What each answer means. It stalls exactly when no set has a quorum; a set it seals or adopts has one, and no
      other set has more; it seals exactly when that set is its own. */
  lemma DecideMeans(mine: Option<Proposal>, peers: seq<Vote>, quorum: nat)
    requires quorum > 0
    ensures var ballots := BallotsOf(mine, peers); var d := Decide(mine, peers, quorum);
      && (d.Stall? <==> forall h :: Tally(ballots, h) < quorum)
      && (!d.Stall? ==>
        Tally(ballots, d.setHash) >= quorum && forall h :: Tally(ballots, h) <= Tally(ballots, d.setHash))
      && (!d.Stall? ==> (d.Seal? <==> mine.Some? && d.setHash == mine.value.setHash))
      && (d.Adopt? ==> exists v :: v in peers && v.proposal == Proposal(d.setHash, d.memberIds))
  {
    var ballots := BallotsOf(mine, peers);
    var votes := VotesOf(ballots);
    VotesTable(ballots);
    var w := WinnerAmong(votes.order, votes.m);
    if w.None? {
      forall h ensures Tally(ballots, h) == 0 {
        if Tally(ballots, h) > 0 { WinnerIsHighest(votes.order, votes.m, h); }
      }
    } else {
      forall h ensures Tally(ballots, h) <= Tally(ballots, w.value) {
        if Tally(ballots, h) > 0 { WinnerIsHighest(votes.order, votes.m, h); }
      }
      FirstForFinds(ballots, w.value);
      if Decide(mine, peers, quorum).Adopt? {
        BallotFromVote(mine, peers, FirstFor(ballots, w.value).value);
      }
    }
  }

  lemma {:induction false} FirstForFinds(ballots: seq<Proposal>, h: SetHash)
    requires Tally(ballots, h) > 0
    ensures FirstFor(ballots, h).Some? && FirstFor(ballots, h).value in ballots
    ensures FirstFor(ballots, h).value.setHash == h
    ensures FirstOf(ballots, FirstFor(ballots, h).value)
  {
    TallyFromFront(ballots, h);
    if ballots[0].setHash != h {
      FirstForFinds(ballots[1..], h);
      var i :| 0 <= i < |ballots[1..]| && FirstAt(ballots[1..], FirstFor(ballots[1..], h).value, i);
      forall k | 0 <= k < i + 1 ensures ballots[k].setHash != h {
        if k > 0 { assert ballots[k] == ballots[1..][k - 1]; }
      }
      assert FirstAt(ballots, FirstFor(ballots, h).value, i + 1);
    } else {
      assert FirstAt(ballots, FirstFor(ballots, h).value, 0);
    }
  }

  lemma {:induction false} TallyAppend(a: seq<Proposal>, b: seq<Proposal>, h: SetHash)
    ensures Tally(a + b, h) == Tally(a, h) + Tally(b, h)
  {
    if b == [] {
      assert a + b == a;
    } else {
      var t := b[..|b| - 1];
      assert (a + b)[..|a + b| - 1] == a + t;
      TallyAppend(a, t, h);
    }
  }

  lemma TallyFromFront(b: seq<Proposal>, h: SetHash)
    requires b != []
    ensures Tally(b, h) == (if b[0].setHash == h then 1 else 0) + Tally(b[1..], h)
  {
    TallyAppend([b[0]], b[1..], h);
    assert b == [b[0]] + b[1..];
    assert Tally([b[0]], h) == Tally([], h) + (if b[0].setHash == h then 1 else 0) by { assert [b[0]][..0] == []; }
  }

  /** A tally is the number of ballots that name the digest. */
  lemma {:induction false} TallyCounts(ballots: seq<Proposal>, h: SetHash)
    ensures Tally(ballots, h) == |set i | 0 <= i < |ballots| && ballots[i].setHash == h|
  {
    if ballots != [] {
      var n := |ballots| - 1;
      TallyCounts(ballots[..n], h);
      var before := set i | 0 <= i < |ballots[..n]| && ballots[..n][i].setHash == h;
      var all := set i | 0 <= i < |ballots| && ballots[i].setHash == h;
      assert all == before + (if ballots[n].setHash == h then {n} else {});
    }
  }

  /** The loop that counts the ballots. */
  method CountVotes(proposals: seq<Proposal>) returns (votes: OrderedMap<SetHash, nat>)
    ensures votes == VotesOf(proposals)
  {
    votes := Empty();
    var j := 0;
    while j < |proposals|
      invariant 0 <= j <= |proposals|
      invariant votes == VotesOf(proposals[..j])
    {
      var h := proposals[j].setHash;
      assert proposals[..j + 1][..j] == proposals[..j];
      votes := votes.Set(h, votes.GetOr(h, 0) + 1);
      j := j + 1;
    }
    assert proposals[..j] == proposals;
  }

  /** The scan for the first highest count. */
  method PickWinner(order: seq<SetHash>, votes: map<SetHash, nat>) returns (win: Option<SetHash>, winCount: nat)
    requires forall h | h in order :: h in votes
    ensures win == WinnerAmong(order, votes)
    ensures winCount == if win.Some? then votes[win.value] else 0
  {
    win, winCount := None, 0;
    var k := 0;
    while k < |order|
      invariant 0 <= k <= |order|
      invariant win == WinnerAmong(order[..k], votes)
      invariant winCount == if win.Some? then votes[win.value] else 0
    {
      var h := order[k];
      assert order[..k + 1][..k] == order[..k];
      if votes[h] > winCount { win, winCount := Some(h), votes[h]; }
      k := k + 1;
    }
    assert order[..k] == order;
  }

  method FindFirst(proposals: seq<Proposal>, h: SetHash) returns (found: Option<Proposal>)
    ensures found == FirstFor(proposals, h)
  {
    var f := 0;
    while f < |proposals| && proposals[f].setHash != h
      invariant 0 <= f <= |proposals|
      invariant FirstFor(proposals, h) == FirstFor(proposals[f..], h)
    {
      assert proposals[f..][1..] == proposals[f + 1..];
      f := f + 1;
    }
    found := if f < |proposals| then Some(proposals[f]) else None;
  }

  /** The quorum decision as the source computes it. */
  method DecideRound(mine: Option<Proposal>, peers: seq<Vote>, quorum: nat) returns (d: Decision)
    ensures d == Decide(mine, peers, quorum)
  {
    var proposals: seq<Proposal> := if mine.Some? then [mine.value] else [];
    var i := 0;
    while i < |peers|
      invariant 0 <= i <= |peers|
      invariant proposals == BallotsOf(mine, peers[..i])
    {
      proposals := proposals + [peers[i].proposal];
      i := i + 1;
    }
    assert peers[..i] == peers;
    var votes := CountVotes(proposals);
    forall h | h in votes.order ensures h in votes.m { assert h in Elements(votes.order); }
    var win, winCount := PickWinner(votes.order, votes.m);
    if win.None? || winCount < quorum { return Stall; }
    if mine.Some? && win.value == mine.value.setHash { return Seal(win.value); }
    var winning := FindFirst(proposals, win.value);
    return Adopt(win.value, if winning.Some? then winning.value.memberIds else []);
  }
}
