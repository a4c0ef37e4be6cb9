/** The validation quorum: raw transactions gather attestations and move to processing, then to the final tier. Each
    method is one atomic step. */
module Workflow {
  import opened Ordering
  import opened JsMap

  type Node = nat
  type TxId = nat
  type TxHash = nat
  type Tx = nat
  type Time = int

  datatype Stamp = Stamp(node: Node, time: Time)
  datatype Entry = Entry(tx: Tx, stamps: seq<Stamp>, leaders: Option<seq<Node>>)
  datatype Processing = Processing(rawTxId: TxId, tx: Tx, clock: int)

  /** `requiredValidations`, whether this node finalizes, how a reported time reads in nanoseconds, and the two
      hashes. */
  datatype Config = Config(required: nat, finalizes: bool, nanos: Time -> nat, rawId: Tx -> TxId,
    validated: (Tx, int) -> TxHash)
  {
    /** The hashes tell transactions apart. The source hashes `{...txData, validationTimestamp}`, so two transactions
        that differ only in a `validationTimestamp` field of their own share a validated hash; a Tx here is one
        without such a field. */
    ghost predicate Faithful() {
      (forall a, b :: rawId(a) == rawId(b) ==> a == b) &&
      (forall a, c, b, d :: validated(a, c) == validated(b, d) ==> a == b && c == d)
    }
  }

  /** What the workflow emits: a move to processing, with the attestations and the leader set it was judged by. */
  datatype Event =
    | ToProcessing(id: TxId, tx: Tx, hash: TxHash, clock: int, stamps: seq<Stamp>, leaders: Option<seq<Node>>)
    | Finalized(hash: TxHash)

  type Pool = map<Node, map<TxId, Entry>>

  datatype State = State(
    pool: Pool, owner: map<TxId, Node>, leaders: map<TxId, seq<Node>>, processed: set<TxId>,
    processing: map<TxHash, Processing>, final: map<TxHash, Tx>, tombs: set<TxId>, log: seq<Event>)

  // ---- reading ----

  /** What a submitter's pool holds for a transaction, if anything. */
  function EntryAt(pool: Pool, leader: Node, id: TxId): Option<Entry> {
    if leader in pool && id in pool[leader] then Some(pool[leader][id]) else None
  }

  predicate Pooled(pool: Pool, leader: Node, id: TxId) { leader in pool && id in pool[leader] }

  /** The entry a transaction is held under, through its submitter. */
  function RawOf(s: State, id: TxId): Option<Entry> {
    if id in s.owner && Pooled(s.pool, s.owner[id], id) then Some(s.pool[s.owner[id]][id]) else None
  }

  function NodesOf(stamps: seq<Stamp>): (r: seq<Node>)
    ensures |r| == |stamps|
  {
    seq(|stamps|, i requires 0 <= i < |stamps| => stamps[i].node)
  }

  /** How many distinct validators attested. */
  function Count(stamps: seq<Stamp>): nat { |Elements(NodesOf(stamps))| }

  function Have(s: State, id: TxId): nat {
    match RawOf(s, id)
    case Some(e) => Count(e.stamps)
    case None => 0
  }

  /** The validations asked for: the smaller of the cap and the recorded set's size, and at least one. */
  function NeedFor(c: Config, set_: Option<seq<Node>>): (r: nat)
    ensures r >= 1
    ensures c.required >= 1 && set_.Some? && set_.value != [] ==>
      r <= c.required && r <= |set_.value| && (r == c.required || r == |set_.value|)
    ensures c.required == 0 || set_.None? || set_.value == [] ==> r == 1
  {
    var size := if set_.Some? && set_.value != [] then |set_.value| else 1;
    var capped := if c.required < size then c.required else size;
    if capped < 1 then 1 else capped
  }

  function LeadersOf(s: State, id: TxId): Option<seq<Node>> { if id in s.leaders then Some(s.leaders[id]) else None }

  function SumNanos(c: Config, stamps: seq<Stamp>): nat {
    if stamps == [] then 0 else SumNanos(c, stamps[..|stamps| - 1]) + c.nanos(stamps[|stamps| - 1].time)
  }

  lemma {:induction false} SumAppend(c: Config, a: seq<Stamp>, b: seq<Stamp>)
    ensures SumNanos(c, a + b) == SumNanos(c, a) + SumNanos(c, b)
    ensures |b| == 1 ==> SumNanos(c, b) == c.nanos(b[0].time)
  {
    if b == [] {
      assert a + b == a;
    } else {
      var n := |b| - 1;
      SumAppend(c, a, b[..n]);
      assert (a + b)[..|a| + n] == a + b[..n];
      if n == 0 { assert b[..0] == []; }
    }
  }

  /** No stamp reads less than lo. */
  ghost predicate AtLeast(c: Config, stamps: seq<Stamp>, lo: int) {
    forall i :: 0 <= i < |stamps| ==> lo <= c.nanos(stamps[i].time)
  }

  ghost predicate AtMost(c: Config, stamps: seq<Stamp>, hi: int) {
    forall i :: 0 <= i < |stamps| ==> c.nanos(stamps[i].time) <= hi
  }

  lemma {:induction false} SumBounds(c: Config, stamps: seq<Stamp>, lo: int, hi: int)
    ensures AtLeast(c, stamps, lo) ==> |stamps| * lo <= SumNanos(c, stamps)
    ensures AtMost(c, stamps, hi) ==> SumNanos(c, stamps) <= |stamps| * hi
  {
    if stamps != [] {
      var n := |stamps| - 1;
      SumBounds(c, stamps[..n], lo, hi);
      assert AtLeast(c, stamps, lo) ==> AtLeast(c, stamps[..n], lo);
      assert AtMost(c, stamps, hi) ==> AtMost(c, stamps[..n], hi);
      assert |stamps| * lo == n * lo + lo && |stamps| * hi == n * hi + hi;
    }
  }

  /** The average lies between the least and the greatest reading. */
  lemma AverageBounds(c: Config, stamps: seq<Stamp>, now: int, lo: int, hi: int)
    requires stamps != []
    ensures AtLeast(c, stamps, lo) ==> lo <= Average(c, stamps, now)
    ensures AtMost(c, stamps, hi) ==> Average(c, stamps, now) <= hi
  {
    SumBounds(c, stamps, lo, hi);
    var n, avg := |stamps|, Average(c, stamps, now);
    FloorTimes(SumNanos(c, stamps), n);
    if avg < lo { MulLess(n, avg, lo); }
    if hi < avg { MulLess(n, hi, avg); }
  }

  /** The averaged consensus clock; a clock reading when nothing was reported. */
  function Average(c: Config, stamps: seq<Stamp>, now: int): int {
    if stamps == [] then now else SumNanos(c, stamps) / |stamps|
  }

  // ---- writing ----

  function PutRaw(pool: Pool, leader: Node, id: TxId, e: Entry): Pool {
    pool[leader := (if leader in pool then pool[leader] else map[])[id := e]]
  }

  function DropRaw(pool: Pool, leader: Node, id: TxId): Pool {
    if leader in pool then pool[leader := pool[leader] - {id}] else pool
  }

  /** Taking a transaction out of a submitter's pool; the submitter mapping goes with it when it names that
      submitter. */
  function Remove(s: State, leader: Node, id: TxId): State {
    var t := s.(pool := DropRaw(s.pool, leader, id));
    if id in t.owner && t.owner[id] == leader then t.(owner := t.owner - {id}) else t
  }

  /** Admission to the raw pool: refused for a tombstone that is not pooled, and for a submitter over its share;
      otherwise a fresh entry with no attestations, even when one was there. */
  function AddRaw(s: State, leader: Node, id: TxId, tx: Tx, room: bool): State {
    if id in s.tombs && !Pooled(s.pool, leader, id) then s
    else
      var t := if leader in s.pool then s else s.(pool := s.pool[leader := map[]]);
      if !room && id !in t.pool[leader] then t
      else t.(pool := PutRaw(t.pool, leader, id, Entry(tx, [], None)))
  }

  function RecordLeaders(s: State, id: TxId, leaders: seq<Node>): State {
    if leaders == [] then s
    else
      var t := s.(leaders := s.leaders[id := leaders]);
      match RawOf(s, id)
      case None => t
      case Some(e) => t.(pool := PutRaw(s.pool, s.owner[id], id, e.(leaders := Some(leaders))))
  }

  /** A submission or a peer's transaction, once it passed the ingress guards. */
  function Accept(s: State, leader: Node, id: TxId, tx: Tx, room: bool, leaders: seq<Node>): State {
    var t := AddRaw(s, leader, id, tx, room);
    RecordLeaders(t.(owner := t.owner[id := leader]), id, leaders)
  }

  /** Neither a tombstone nor a full share lets a transaction in that is not pooled already. */
  predicate Refused(s: State, leader: Node, id: TxId, room: bool) {
    (id in s.tombs || !room) && EntryAt(s.pool, leader, id).None?
  }

  /** No entry of the pool changes but this submitter's entry for this transaction. */
  ghost predicate OthersKept(pool: Pool, after: Pool, leader: Node, id: TxId) {
    forall a: Node, x: TxId :: a != leader || x != id ==> EntryAt(after, a, x) == EntryAt(pool, a, x)
  }

  /** The submitter's pool holds the transaction afresh, unless it was refused. */
  ghost predicate IsAdded(s: State, t: State, leader: Node, id: TxId, tx: Tx, room: bool, leaders: seq<Node>) {
    && EntryAt(t.pool, leader, id)
      == (if Refused(s, leader, id, room) then None
        else Some(Entry(tx, [], if leaders == [] then None else Some(leaders))))
    && OthersKept(s.pool, t.pool, leader, id)
    && t.processed == s.processed && t.processing == s.processing && t.final == s.final && t.tombs == s.tombs
    && t.log == s.log
  }

  /** So much for the pool; the submitter mapping and the leader set follow, refused or not. */
  ghost predicate IsAccepted(s: State, t: State, leader: Node, id: TxId, tx: Tx, room: bool, leaders: seq<Node>) {
    && IsAdded(s, t, leader, id, tx, room, leaders)
    && t.owner == s.owner[id := leader]
    && t.leaders == if leaders == [] then s.leaders else s.leaders[id := leaders]
  }

  lemma PutKeepsOthers(pool: Pool, leader: Node, id: TxId, e: Entry)
    ensures OthersKept(pool, PutRaw(pool, leader, id, e), leader, id)
    ensures EntryAt(PutRaw(pool, leader, id, e), leader, id) == Some(e)
  {
  }

  lemma AddIsAdded(s: State, leader: Node, id: TxId, tx: Tx, room: bool)
    ensures IsAdded(s, AddRaw(s, leader, id, tx, room), leader, id, tx, room, [])
  {
    var t := if leader in s.pool then s else s.(pool := s.pool[leader := map[]]);
    PutKeepsOthers(t.pool, leader, id, Entry(tx, [], None));
    assert forall a: Node, x: TxId :: EntryAt(t.pool, a, x) == EntryAt(s.pool, a, x);
    hide PutRaw;
  }

  lemma RecordIsAdded(s: State, t: State, leader: Node, id: TxId, tx: Tx, room: bool, leaders: seq<Node>)
    requires IsAdded(s, t, leader, id, tx, room, []) && id in t.owner && t.owner[id] == leader
    ensures IsAdded(s, RecordLeaders(t, id, leaders), leader, id, tx, room, leaders)
  {
    assert RawOf(t, id) == EntryAt(t.pool, leader, id);
    if RawOf(t, id).Some? { PutKeepsOthers(t.pool, leader, id, RawOf(t, id).value.(leaders := Some(leaders))); }
    hide PutRaw, EntryAt;
  }

  lemma AcceptIsAccepted(s: State, leader: Node, id: TxId, tx: Tx, room: bool, leaders: seq<Node>)
    ensures IsAccepted(s, Accept(s, leader, id, tx, room, leaders), leader, id, tx, room, leaders)
  {
    var t := AddRaw(s, leader, id, tx, room);
    assert t.owner == s.owner && t.leaders == s.leaders;
    hide OthersKept, EntryAt, PutRaw, RawOf, AddRaw, Refused;
    AddIsAdded(s, leader, id, tx, room);
    var u := t.(owner := t.owner[id := leader]);
    assert IsAdded(s, u, leader, id, tx, room, []);
    RecordIsAdded(s, u, leader, id, tx, room, leaders);
  }

  function AddStamp(s: State, id: TxId, node: Node, time: Time): State {
    match RawOf(s, id)
    case None => s
    case Some(e) =>
      if node in NodesOf(e.stamps) then s
      else s.(pool := PutRaw(s.pool, s.owner[id], id, e.(stamps := e.stamps + [Stamp(node, time)])))
  }

  function Move(c: Config, s: State, id: TxId, now: int): State {
    match RawOf(s, id)
    case None => s
    case Some(e) =>
      var clock := Average(c, e.stamps, now);
      var hash := c.validated(e.tx, clock);
      var t := s.(processed := s.processed + {id},
                  processing := if c.finalizes then s.processing[hash := Processing(id, e.tx, clock)]
                    else s.processing);
      var u := Remove(t, s.owner[id], id);
      u.(owner := u.owner - {id}, log := u.log + [ToProcessing(id, e.tx, hash, clock, e.stamps, LeadersOf(s, id))])
  }

  /** The transaction is processed, out of its submitter's pool, and promoted: stored under the hash of its content and
      averaged clock where this node finalizes, and reported with the attestations and leader set it was judged by. */
  ghost predicate IsMoved(c: Config, s: State, t: State, id: TxId, e: Entry) {
    && t.processed == s.processed + {id} && id !in t.owner && (forall x :: x != id ==> (x in t.owner <==> x in s.owner))
    && (id in s.owner ==> EntryAt(t.pool, s.owner[id], id) == None)
    && (forall a: Node, x: TxId :: x != id ==> EntryAt(t.pool, a, x) == EntryAt(s.pool, a, x))
    && |t.log| == |s.log| + 1 && t.log[..|s.log|] == s.log
    && t.final == s.final && t.leaders == s.leaders && t.tombs == s.tombs
    && var p := t.log[|s.log|];
       && p.ToProcessing? && p.id == id && p.tx == e.tx && p.stamps == e.stamps && p.hash == c.validated(e.tx, p.clock)
       && p.leaders == (if id in s.leaders then Some(s.leaders[id]) else None)
       && (e.stamps != [] ==> forall n: nat :: AtLeast(c, e.stamps, n) && AtMost(c, e.stamps, n) ==> p.clock == n)
       && t.processing == if c.finalizes then s.processing[p.hash := Processing(id, e.tx, p.clock)] else s.processing
  }

  lemma MoveIsMoved(c: Config, s: State, id: TxId, now: int)
    requires RawOf(s, id).Some?
    ensures IsMoved(c, s, Move(c, s, id, now), id, RawOf(s, id).value)
  {
    var e := RawOf(s, id).value;
    if e.stamps != [] {
      forall n: nat ensures AtLeast(c, e.stamps, n) && AtMost(c, e.stamps, n) ==> Average(c, e.stamps, now) == n {
        AverageBounds(c, e.stamps, now, n, n);
      }
    }
    hide AtLeast, AtMost, Average;
  }

  datatype SigVerdict = SigFine | SigInvalid | SigError

  function Complete(c: Config, s: State, id: TxId, found: bool, sig: SigVerdict, node: Node, time: Time,
        now: int): State
  {
    if id in s.processed || !found || sig.SigError? then s
    else if sig.SigInvalid? then EvictMapped(s, id)
    else
      var t := AddStamp(s, id, node, time);
      if Have(t, id) >= NeedFor(c, LeadersOf(t, id)) then Move(c, t, id, now) else t
  }

  /** A valid report promotes exactly when its transaction is pooled and has, with it, enough distinct validators. */
  lemma ReportPromotes(c: Config, s: State, id: TxId, node: Node, time: Time, now: int)
    ensures id !in s.processed ==>
      (Complete(c, s, id, true, SigFine, node, time, now).log != s.log <==>
        RawOf(s, id).Some? && |Elements(NodesOf(RawOf(s, id).value.stamps)) + {node}| >= NeedFor(c, LeadersOf(s, id)))
  {
    var t := AddStamp(s, id, node, time);
    if RawOf(s, id).Some? {
      var e := RawOf(s, id).value;
      var more := e.stamps + [Stamp(node, time)];
      assert NodesOf(more) == NodesOf(e.stamps) + [node];
      assert Elements(NodesOf(more)) == Elements(NodesOf(e.stamps)) + {node};
      if node in NodesOf(e.stamps) { assert Elements(NodesOf(e.stamps)) + {node} == Elements(NodesOf(e.stamps)); }
      assert Have(t, id) == |Elements(NodesOf(e.stamps)) + {node}| && RawOf(t, id).Some?;
    }
  }

  /** Eviction by transaction: out of the pool of the submitter it is mapped to, if any. */
  function EvictMapped(s: State, id: TxId): State {
    var t := if id in s.owner then Remove(s, s.owner[id], id) else s;
    t.(owner := t.owner - {id})
  }

  /** One transaction of the promotion sweep. `alone`: this node sees no other live lead. */
  function Promote(c: Config, s: State, id: TxId, alone: bool, now: int): State {
    if id in s.processed || id in s.processing then s
    else if LeadersOf(s, id).None? && !alone then s
    else if Have(s, id) < NeedFor(c, LeadersOf(s, id)) then s
    else Move(c, s, id, now)
  }

  function Finalize(s: State, h: TxHash): State {
    if h !in s.processing then s
    else s.(final := s.final[h := s.processing[h].tx], processing := s.processing - {h}, log := s.log + [Finalized(h)])
  }

  function Rehydrate(s: State, leader: Node, id: TxId): State {
    if !Pooled(s.pool, leader, id) then s
    else
      var e := s.pool[leader][id];
      var t := if id in s.owner then s else s.(owner := s.owner[id := leader]);
      if e.leaders.Some? && e.leaders.value != [] && id !in t.leaders
      then t.(leaders := t.leaders[id := e.leaders.value])
      else t
  }

  function Recover(s: State, leader: Node, id: TxId, leaders: seq<Node>): State {
    if id in s.processing || !Pooled(s.pool, leader, id) then s
    else RecordLeaders(if id in s.owner then s else s.(owner := s.owner[id := leader]), id, leaders)
  }

  // ---- the class ----

  class Workflow {
    const config: Config
    var rawTx: Pool
    var rawTxToId: map<TxId, Node>
    var rawTxLeaders: map<TxId, seq<Node>>
    var processedRawTxIds: set<TxId>
    var processingTx: map<TxHash, Processing>
    var tx: map<TxHash, Tx>
    var tombs: set<TxId>
    var emitted: seq<Event>

    ghost function Now(): State reads this {
      State(rawTx, rawTxToId, rawTxLeaders, processedRawTxIds, processingTx, tx, tombs, emitted)
    }

    constructor (config: Config, restored: Pool)
      ensures this.config == config && Now() == Boot(restored)
    {
      this.config := config;
      rawTx, rawTxToId, rawTxLeaders, processedRawTxIds := restored, map[], map[], {};
      processingTx, tx, tombs, emitted := map[], map[], {}, [];
    }

    /** The loop behind the averaged clock. */
    method AverageTimestamps(stamps: seq<Stamp>, clock: int) returns (avg: int)
      ensures avg == Average(config, stamps, clock)
      ensures stamps == [] ==> avg == clock
      ensures stamps != [] ==> forall lo: int :: AtLeast(config, stamps, lo) ==> lo <= avg
      ensures stamps != [] ==> forall hi: int :: AtMost(config, stamps, hi) ==> avg <= hi
      ensures stamps != [] ==> forall n: nat :: AtLeast(config, stamps, n) && AtMost(config, stamps, n) ==> avg == n
      ensures |stamps| == 2 ==> avg == (config.nanos(stamps[0].time) + config.nanos(stamps[1].time)) / 2
    {
      if stamps != [] {
        forall lo: int | AtLeast(config, stamps, lo) ensures lo <= Average(config, stamps, clock) {
          AverageBounds(config, stamps, clock, lo, lo);
        }
        forall hi: int | AtMost(config, stamps, hi) ensures Average(config, stamps, clock) <= hi {
          AverageBounds(config, stamps, clock, hi, hi);
        }
      }
      if |stamps| == 2 {
        assert stamps == [stamps[0]] + [stamps[1]];
        SumAppend(config, [stamps[0]], [stamps[1]]);
        SumAppend(config, [], [stamps[0]]);
        assert [] + [stamps[0]] == [stamps[0]];
      }
      hide AtLeast, AtMost, Average;
      avg := SumThenDivide(stamps, clock);
    }

    method SumThenDivide(stamps: seq<Stamp>, clock: int) returns (avg: int)
      ensures avg == Average(config, stamps, clock)
    {
      if stamps == [] { return clock; }
      var sum: nat := 0;
      var i := 0;
      while i < |stamps|
        invariant 0 <= i <= |stamps|
        invariant sum == SumNanos(config, stamps[..i])
      {
        assert stamps[..i + 1][..i] == stamps[..i];
        sum := sum + config.nanos(stamps[i].time);
        i := i + 1;
      }
      assert stamps[..i] == stamps;
      return sum / |stamps|;
    }

    method GetRawTransaction(id: TxId) returns (e: Option<Entry>)
      ensures e == RawOf(Now(), id)
    {
      if id !in rawTxToId { return None; }
      var leader := rawTxToId[id];
      if leader !in rawTx || id !in rawTx[leader] { return None; }
      return Some(rawTx[leader][id]);
    }

    method DeleteRaw(leader: Node, id: TxId)
      modifies this`rawTx, this`rawTxToId
      ensures Now() == Remove(old(Now()), leader, id)
      ensures EntryAt(rawTx, leader, id).None? && OthersKept(old(rawTx), rawTx, leader, id)
      ensures rawTxToId == if id in old(rawTxToId) &&
        old(rawTxToId)[id] == leader then old(rawTxToId) - {id} else old(rawTxToId)
    {
      if leader in rawTx { rawTx := rawTx[leader := rawTx[leader] - {id}]; }
      if id in rawTxToId && rawTxToId[id] == leader { rawTxToId := rawTxToId - {id}; }
    }

    method RecordLeaderSet(id: TxId, leaders: seq<Node>)
      modifies this`rawTx, this`rawTxLeaders
      ensures Now() == RecordLeaders(old(Now()), id, leaders)
      ensures leaders == [] ==> Now() == old(Now())
      ensures leaders != [] ==> rawTxLeaders == old(rawTxLeaders)[id := leaders]
      ensures RawOf(old(Now()), id).None? ==> rawTx == old(rawTx)
      ensures leaders != [] && RawOf(old(Now()), id).Some? ==>
        RawOf(Now(), id) == Some(RawOf(old(Now()), id).value.(leaders := Some(leaders)))
      ensures forall a: Node, x :: x != id || id !in rawTxToId || a != rawTxToId[id] ==>
        EntryAt(rawTx, a, x) == EntryAt(old(rawTx), a, x)
    {
      if leaders == [] { return; }
      var e := GetRawTransaction(id);
      rawTxLeaders := rawTxLeaders[id := leaders];
      if e.Some? {
        rawTx := PutRaw(rawTx, rawTxToId[id], id, e.value.(leaders := Some(leaders)));
      }
    }

    method AddRawTransaction(leader: Node, id: TxId, data: Tx, room: bool)
      modifies this`rawTx
      ensures Now() == AddRaw(old(Now()), leader, id, data, room)
      ensures IsAdded(old(Now()), Now(), leader, id, data, room, [])
    {
      if id in tombs && !(leader in rawTx && id in rawTx[leader]) { return; }
      if leader !in rawTx { rawTx := rawTx[leader := map[]]; }
      if !room && id !in rawTx[leader] { return; }
      rawTx := PutRaw(rawTx, leader, id, Entry(data, [], None));
    }

    /** A local submission. There is no check against what was already processed. */
    method SubmitTransaction(leader: Node, data: Tx, admitted: bool, room: bool, leaders: seq<Node>)
      modifies this
      ensures Now() == Exec(config, old(Now()), Submit(leader, data, admitted, room, leaders))
      ensures !admitted ==> Now() == old(Now())
      ensures admitted ==> IsAccepted(old(Now()), Now(), leader, config.rawId(data), data, room, leaders)
    {
      AcceptIsAccepted(Now(), leader, config.rawId(data), data, room, leaders);
      hide IsAccepted;
      if !admitted { return; }
      var id := config.rawId(data);
      AddRawTransaction(leader, id, data, room);
      rawTxToId := rawTxToId[id := leader];
      RecordLeaderSet(id, leaders);
    }

    /** A transaction from a peer; one that was processed already is ignored. */
    method IngestRemoteTransaction(leader: Node, data: Tx, admitted: bool, room: bool, leaders: seq<Node>)
      modifies this
      ensures Now() == Exec(config, old(Now()), Ingest(leader, data, admitted, room, leaders))
      ensures !admitted || config.rawId(data) in old(processedRawTxIds) ==> Now() == old(Now())
      ensures admitted && config.rawId(data) !in old(processedRawTxIds) ==>
        IsAccepted(old(Now()), Now(), leader, config.rawId(data), data, room, leaders)
    {
      AcceptIsAccepted(Now(), leader, config.rawId(data), data, room, leaders);
      hide IsAccepted;
      if !admitted { return; }
      var id := config.rawId(data);
      if id in processedRawTxIds { return; }
      AddRawTransaction(leader, id, data, room);
      rawTxToId := rawTxToId[id := leader];
      RecordLeaderSet(id, leaders);
    }

    method AddValidationTimestamp(id: TxId, node: Node, time: Time)
      modifies this`rawTx
      ensures Now() == AddStamp(old(Now()), id, node, time)
      // The first report of each validator is kept, at the end; a later one changes nothing.
      ensures RawOf(old(Now()), id).Some? && node !in NodesOf(RawOf(old(Now()), id).value.stamps) ==>
        RawOf(Now(), id) ==
          Some(RawOf(old(Now()), id).value.(stamps := RawOf(old(Now()), id).value.stamps + [Stamp(node, time)]))
      ensures RawOf(old(Now()), id).None? || node in NodesOf(RawOf(old(Now()), id).value.stamps) ==> Now() == old(Now())
      ensures forall a: Node, x: TxId :: x != id ==> EntryAt(rawTx, a, x) == EntryAt(old(rawTx), a, x)
    {
      var e := GetRawTransaction(id);
      if e.None? { return; }
      var i := 0;
      while i < |e.value.stamps|
        invariant 0 <= i <= |e.value.stamps|
        invariant forall j :: 0 <= j < i ==> e.value.stamps[j].node != node
      {
        if e.value.stamps[i].node == node {
          assert NodesOf(e.value.stamps)[i] == node;
          return;
        }
        i := i + 1;
      }
      rawTx := PutRaw(rawTx, rawTxToId[id], id, e.value.(stamps := e.value.stamps + [Stamp(node, time)]));
    }

    method MoveToProcessing(id: TxId, clock: int)
      modifies this
      ensures Now() == Move(config, old(Now()), id, clock)
      ensures RawOf(old(Now()), id).None? ==> Now() == old(Now())
      ensures RawOf(old(Now()), id).Some? ==> IsMoved(config, old(Now()), Now(), id, RawOf(old(Now()), id).value)
    {
      if RawOf(Now(), id).Some? { MoveIsMoved(config, Now(), id, clock); }
      hide IsMoved;
      var e := GetRawTransaction(id);
      if e.None? { return; }
      processedRawTxIds := processedRawTxIds + {id};
      var avg := AverageTimestamps(e.value.stamps, clock);
      var hash := config.validated(e.value.tx, avg);
      if config.finalizes { processingTx := processingTx[hash := Processing(id, e.value.tx, avg)]; }
      DeleteRaw(rawTxToId[id], id);
      rawTxToId := rawTxToId - {id};
      var leaders := if id in rawTxLeaders then Some(rawTxLeaders[id]) else None;
      emitted := emitted + [ToProcessing(id, e.value.tx, hash, avg, e.value.stamps, leaders)];
    }

    method EvictRawTx(id: TxId)
      modifies this
      ensures Now() == EvictMapped(old(Now()), id)
      ensures id in old(rawTxToId) ==> EntryAt(rawTx, old(rawTxToId)[id], id) == None
      ensures forall a: Node, x: TxId :: x != id || id !in old(rawTxToId) || a != old(rawTxToId)[id] ==>
        EntryAt(rawTx, a, x) == EntryAt(old(rawTx), a, x)
      ensures rawTxToId == old(rawTxToId) - {id} && emitted == old(emitted) &&
        processedRawTxIds == old(processedRawTxIds)
    {
      if id in rawTxToId { DeleteRaw(rawTxToId[id], id); }
      rawTxToId := rawTxToId - {id};
    }

    method Quorate(id: TxId) returns (ok: bool)
      ensures ok <==> Have(Now(), id) >= NeedFor(config, LeadersOf(Now(), id))
    {
      var e := GetRawTransaction(id);
      var have := if e.Some? then Count(e.value.stamps) else 0;
      return have >= NeedFor(config, if id in rawTxLeaders then Some(rawTxLeaders[id]) else None);
    }

    method CompleteValidation(id: TxId, found: bool, sig: SigVerdict, node: Node, time: Time, clock: int)
      modifies this
      ensures Now() == Complete(config, old(Now()), id, found, sig, node, time, clock)
      // A processed transaction, an unknown task and a failed check change nothing; an invalid signature evicts.
      ensures id in old(processedRawTxIds) || !found || sig == SigError ==> Now() == old(Now())
      ensures id !in old(processedRawTxIds) && found && sig == SigInvalid ==> Now() == EvictMapped(old(Now()), id)
      // Otherwise the report counts, and promotes exactly when its transaction is pooled and now has enough validators.
      ensures id !in old(processedRawTxIds) && found && sig == SigFine ==>
        (emitted != old(emitted) <==>
          && RawOf(old(Now()), id).Some?
          && |Elements(NodesOf(RawOf(old(Now()), id).value.stamps)) +
            {node}| >= NeedFor(config, LeadersOf(old(Now()), id)))
    {
      ReportPromotes(config, Now(), id, node, time, clock);
      hide EvictMapped, Move, AddStamp;
      if id in processedRawTxIds { return; }
      if !found { return; }
      match sig {
        case SigError => return;
        case SigInvalid => EvictRawTx(id);
        case SigFine =>
          AddValidationTimestamp(id, node, time);
          var quorate := Quorate(id);
          if quorate { MoveToProcessing(id, clock); }
      }
    }

    method PromoteSatisfied(id: TxId, alone: bool, clock: int)
      modifies this
      ensures Now() == Promote(config, old(Now()), id, alone, clock)
      // It promotes exactly when the transaction is pooled and unprocessed, has its validators, and is judged by a
      // known set or by a node that sees no other lead; otherwise nothing changes.
      ensures emitted != old(emitted) <==>
        && id !in old(processedRawTxIds) && id !in old(processingTx) && (id in old(rawTxLeaders) || alone)
        && RawOf(old(Now()), id).Some?
        && Count(RawOf(old(Now()), id).value.stamps) >= NeedFor(config, LeadersOf(old(Now()), id))
      ensures emitted == old(emitted) ==> Now() == old(Now())
    {
      if id in processedRawTxIds { return; }
      if id in processingTx { return; }
      if id !in rawTxLeaders && !alone { return; }
      var quorate := Quorate(id);
      if quorate { MoveToProcessing(id, clock); }
    }

    method FinalizeTransaction(h: TxHash) returns (done: bool)
      modifies this
      ensures Now() == Finalize(old(Now()), h) && done == (h in old(processingTx))
      ensures h in old(processingTx) ==>
        && tx == old(tx)[h := old(processingTx)[h].tx] && processingTx == old(processingTx) - {h}
        && emitted == old(emitted) + [Finalized(h)]
      ensures h !in old(processingTx) ==> Now() == old(Now())
    {
      if h !in processingTx { return false; }
      tx := tx[h := processingTx[h].tx];
      processingTx := processingTx - {h};
      emitted := emitted + [Finalized(h)];
      return true;
    }
  }

  function Boot(restored: Pool): State { State(restored, map[], map[], {}, map[], map[], {}, []) }

  // ---- runs ----

  datatype Step =
    | Submit(leader: Node, tx: Tx, admitted: bool, room: bool, leaders: seq<Node>)
    | Ingest(leader: Node, tx: Tx, admitted: bool, room: bool, leaders: seq<Node>)
    | Report(id: TxId, found: bool, sig: SigVerdict, node: Node, time: Time, now: int)
    | Sweep(id: TxId, alone: bool, now: int)
    | Evict(id: TxId)
    | Drain(leader: Node, id: TxId)
    | Reap(leader: Node, id: TxId)
    | Bound(leader: Node, id: TxId, tomb: bool)
    | Recovery(leader: Node, id: TxId, leaders: seq<Node>)
    | Restore(leader: Node, id: TxId)
    | FinalizeOne(hash: TxHash)
    | DropOne(hash: TxHash)

  function Exec(c: Config, s: State, e: Step): State {
    match e
    case Submit(leader, tx, admitted, room, leaders) =>
      if admitted then Accept(s, leader, c.rawId(tx), tx, room, leaders) else s
    case Ingest(leader, tx, admitted, room, leaders) =>
      if admitted && c.rawId(tx) !in s.processed then Accept(s, leader, c.rawId(tx), tx, room, leaders) else s
    case Report(id, found, sig, node, time, now) => Complete(c, s, id, found, sig, node, time, now)
    case Sweep(id, alone, now) => Promote(c, s, id, alone, now)
    case Evict(id) => EvictMapped(s, id)
    case Drain(leader, id) => var t := Remove(s, leader, id); t.(owner := t.owner - {id})
    case Reap(leader, id) =>
      if id in s.processed then s
      else var t := Remove(s, leader, id); t.(owner := t.owner - {id})
    case Bound(leader, id, tomb) => var t := Remove(s, leader, id); if tomb then t.(tombs := t.tombs + {id}) else t
    case Recovery(leader, id, leaders) => Recover(s, leader, id, leaders)
    case Restore(leader, id) => Rehydrate(s, leader, id)
    case FinalizeOne(h) => Finalize(s, h)
    case DropOne(h) => s.(processing := s.processing - {h})
  }

  /** A restart takes a pooled transaction up as it was saved, leader set included, and overrides nothing known
      since. */
  lemma RestoredAsSaved(s: State, leader: Node, id: TxId)
    requires Pooled(s.pool, leader, id)
    ensures var t := Rehydrate(s, leader, id);
      && t.pool == s.pool && t.processed == s.processed && t.processing == s.processing && t.log == s.log
      && t.owner == (if id in s.owner then s.owner else s.owner[id := leader])
      && (id !in s.owner ==> RawOf(t, id) == Some(s.pool[leader][id]))
      && (id in s.leaders ==> t.leaders == s.leaders)
      && (id !in s.leaders && s.pool[leader][id].leaders.Some? && s.pool[leader][id].leaders.value != [] ==>
            LeadersOf(t, id) == s.pool[leader][id].leaders)
  {
  }

  /** Recovery names the submitter of a pooled transaction that has none, and records the leader set it found. */
  lemma RecoveredIsKnown(s: State, leader: Node, id: TxId, leaders: seq<Node>)
    ensures var t := Recover(s, leader, id, leaders);
      && (id in s.processing || !Pooled(s.pool, leader, id) ==> t == s)
      && (id !in s.processing && Pooled(s.pool, leader, id) ==>
            && RawOf(t, id).Some? == (id !in s.owner || RawOf(s, id).Some?)
            && LeadersOf(t, id) == (if leaders == [] then LeadersOf(s, id) else Some(leaders))
            && (leaders != [] && RawOf(t, id).Some? ==> RawOf(t, id).value.leaders == Some(leaders)))
  {
  }

  /** Bounding the pool takes the entry out and buries it when told to; a mapping to another submitter stays. */
  lemma BoundedIsOut(c: Config, s: State, leader: Node, id: TxId, tomb: bool)
    ensures var t := Exec(c, s, Bound(leader, id, tomb));
      && EntryAt(t.pool, leader, id).None? && OthersKept(s.pool, t.pool, leader, id)
      && t.tombs == (if tomb then s.tombs + {id} else s.tombs)
      && (id in t.owner <==> id in s.owner && s.owner[id] != leader)
  {
  }

  datatype Run = Run(c: Config, states: seq<State>, steps: seq<Step>) {
    ghost predicate Valid() {
      && |states| == |steps| + 1
      && states[0].processed == {} && states[0].processing == map[] && states[0].log == []
      && TxsKnown(c, states[0])
      && forall t :: 0 <= t < |steps| ==> StepAt(t)
    }

    ghost predicate StepAt(t: nat)
      requires |states| == |steps| + 1 && t < |steps|
    {
      states[t + 1] == Exec(c, states[t], steps[t])
    }
  }

  /** Every pooled transaction is pooled under its own hash. */
  ghost predicate Known(c: Config, pool: Pool) {
    forall leader, id :: Pooled(pool, leader, id) ==> c.rawId(pool[leader][id].tx) == id
  }

  ghost predicate TxsKnown(c: Config, s: State) { Known(c, s.pool) }

  // ---- promotion is quorate and happens once ----

  ghost predicate Promoted(log: seq<Event>, h: TxHash) {
    exists i :: 0 <= i < |log| && log[i].ToProcessing? && log[i].hash == h
  }

  /** A move to processing names its transaction truly and held a quorum of distinct validators. */
  ghost predicate Quorate(c: Config, e: Event) {
    e.ToProcessing? ==>
      e.hash == c.validated(e.tx, e.clock) && c.rawId(e.tx) == e.id && Count(e.stamps) >= NeedFor(c, e.leaders)
  }

  ghost predicate AllQuorate(c: Config, s: State) {
    forall i :: 0 <= i < |s.log| ==> Quorate(c, s.log[i]) && (s.log[i].ToProcessing? ==> s.log[i].id in s.processed)
  }

  ghost predicate OncePerTx(log: seq<Event>) {
    forall i, j :: 0 <= i < j < |log| && log[i].ToProcessing? && log[j].ToProcessing? ==> log[i].id != log[j].id
  }

  ghost predicate HeldWerePromoted(s: State) { forall h :: h in s.processing ==> Promoted(s.log, h) }

  ghost predicate FinalizedOnce(s: State) {
    && (forall i :: 0 <= i < |s.log| && s.log[i].Finalized? ==>
          s.log[i].hash !in s.processing && Promoted(s.log[..i], s.log[i].hash))
    && (forall i, j :: 0 <= i < j < |s.log| && s.log[i].Finalized? && s.log[j].Finalized? ==>
      s.log[i].hash != s.log[j].hash)
  }

  ghost predicate Inv(c: Config, s: State) {
    TxsKnown(c, s) && AllQuorate(c, s) && OncePerTx(s.log) && HeldWerePromoted(s) && FinalizedOnce(s)
  }

  /** A step that promotes nothing and finalizes nothing. */
  ghost predicate Quiet(s: State, t: State) {
    t.log == s.log && t.processed == s.processed && t.processing.Keys <= s.processing.Keys
  }

  lemma QuietKeeps(c: Config, s: State, t: State)
    requires Inv(c, s) && Quiet(s, t) && TxsKnown(c, t)
    ensures Inv(c, t)
  {
  }

  lemma MoveKeeps(c: Config, s: State, id: TxId, now: int)
    requires Inv(c, s) && id !in s.processed && Have(s, id) >= NeedFor(c, LeadersOf(s, id)) && c.Faithful()
    ensures Inv(c, Move(c, s, id, now))
  {
    var t := Move(c, s, id, now);
    if RawOf(s, id).Some? {
      var e := RawOf(s, id).value;
      var hash := c.validated(e.tx, Average(c, e.stamps, now));
      var ev := t.log[|s.log|];
      assert t.log == s.log + [ev] && ev.ToProcessing? && ev.hash == hash;
      assert TxsKnown(c, t);
      assert AllQuorate(c, t) && OncePerTx(t.log);
      NewHash(c, s, e.tx, Average(c, e.stamps, now));
      MoveLedgers(c, s, t, ev);
    }
  }

  /** A promotion under a hash never promoted keeps what is known of the processing tier and of what was finalized. */
  lemma MoveLedgers(c: Config, s: State, t: State, ev: Event)
    requires HeldWerePromoted(s) && FinalizedOnce(s) && ev.ToProcessing? && !Promoted(s.log, ev.hash)
    requires t.log == s.log + [ev] && t.processing.Keys <= s.processing.Keys + {ev.hash}
    ensures HeldWerePromoted(t) && FinalizedOnce(t)
  {
    PromotedStays(s.log, ev);
    assert t.log[|s.log|] == ev;
    assert Promoted(t.log, ev.hash);
    forall i | 0 <= i < |s.log| ensures t.log[..i] == s.log[..i] { }
    forall i | 0 <= i < |s.log| && s.log[i].Finalized? ensures s.log[i].hash != ev.hash {
      PromotedEarlier(s.log, i, s.log[i].hash);
    }
    hide Promoted;
  }

  lemma PromotedEarlier(log: seq<Event>, i: nat, h: TxHash)
    requires i <= |log| && Promoted(log[..i], h)
    ensures Promoted(log, h)
  {
    var k :| 0 <= k < i && log[..i][k].ToProcessing? && log[..i][k].hash == h;
    assert log[k] == log[..i][k];
  }

  /** A transaction not yet processed has a validated hash that was never promoted. */
  lemma NewHash(c: Config, s: State, tx: Tx, clock: int)
    requires AllQuorate(c, s) && c.rawId(tx) !in s.processed && c.Faithful()
    ensures !Promoted(s.log, c.validated(tx, clock))
  {
    forall i | 0 <= i < |s.log| && s.log[i].ToProcessing? ensures s.log[i].hash != c.validated(tx, clock) {
      assert Quorate(c, s.log[i]) && s.log[i].id in s.processed;
    }
  }

  lemma PromotedStays(log: seq<Event>, ev: Event)
    ensures forall h :: Promoted(log, h) ==> Promoted(log + [ev], h)
  {
    forall h | Promoted(log, h) ensures Promoted(log + [ev], h) {
      var i :| 0 <= i < |log| && log[i].ToProcessing? && log[i].hash == h;
      assert (log + [ev])[i] == log[i];
    }
  }

  lemma FinalizeOnce(s: State, h: TxHash)
    requires FinalizedOnce(s) && h in s.processing && Promoted(s.log, h)
    ensures FinalizedOnce(Finalize(s, h))
  {
    PromotedStays(s.log, Finalized(h));
    hide Promoted;
    var t := Finalize(s, h);
    assert forall i :: 0 <= i < |s.log| ==> t.log[i] == s.log[i];
    forall i | 0 <= i < |s.log| ensures t.log[..i] == s.log[..i] { }
    assert t.log[..|s.log|] == s.log;
  }

  lemma FinalizeRest(c: Config, s: State, h: TxHash)
    requires AllQuorate(c, s) && OncePerTx(s.log) && HeldWerePromoted(s) && h in s.processing
    ensures var t := Finalize(s, h); AllQuorate(c, t) && OncePerTx(t.log) && HeldWerePromoted(t)
  {
    hide Quorate;
    var t := Finalize(s, h);
    PromotedStays(s.log, Finalized(h));
    hide Promoted;
    assert Quorate(c, Finalized(h)) by { NotAPromotion(c, h); }
    assert forall i :: 0 <= i < |s.log| ==> t.log[i] == s.log[i];
  }

  lemma NotAPromotion(c: Config, h: TxHash)
    ensures Quorate(c, Finalized(h))
  {
  }

  lemma FinalizeKeeps(c: Config, s: State, h: TxHash)
    requires Inv(c, s)
    ensures Inv(c, Finalize(s, h))
  {
    if h in s.processing {
      assert Promoted(s.log, h);
      hide Known, AllQuorate, OncePerTx, HeldWerePromoted, FinalizedOnce, Promoted;
      FinalizeOnce(s, h);
      FinalizeRest(c, s, h);
    }
  }

  lemma PutKnown(c: Config, pool: Pool, leader: Node, id: TxId, e: Entry)
    requires Known(c, pool) && c.rawId(e.tx) == id
    ensures Known(c, PutRaw(pool, leader, id, e))
  {
  }

  lemma DropKnown(c: Config, pool: Pool, leader: Node, id: TxId)
    requires Known(c, pool)
    ensures Known(c, DropRaw(pool, leader, id))
  {
  }

  lemma RecordKnown(c: Config, s: State, id: TxId, leaders: seq<Node>)
    requires TxsKnown(c, s)
    ensures TxsKnown(c, RecordLeaders(s, id, leaders)) && Quiet(s, RecordLeaders(s, id, leaders))
  {
    if leaders != [] && RawOf(s, id).Some? {
      assert Pooled(s.pool, s.owner[id], id);
      PutKnown(c, s.pool, s.owner[id], id, RawOf(s, id).value.(leaders := Some(leaders)));
    }
  }

  lemma AddKnown(c: Config, s: State, leader: Node, tx: Tx, room: bool)
    requires TxsKnown(c, s)
    ensures TxsKnown(c, AddRaw(s, leader, c.rawId(tx), tx, room)) && Quiet(s, AddRaw(s, leader, c.rawId(tx), tx, room))
  {
    var pool := if leader in s.pool then s.pool else s.pool[leader := map[]];
    assert Known(c, pool);
    PutKnown(c, pool, leader, c.rawId(tx), Entry(tx, [], None));
  }

  lemma AcceptKeeps(c: Config, s: State, leader: Node, tx: Tx, room: bool, leaders: seq<Node>)
    requires Inv(c, s)
    ensures Inv(c, Accept(s, leader, c.rawId(tx), tx, room, leaders))
  {
    hide Known, AllQuorate, OncePerTx, HeldWerePromoted, FinalizedOnce, AddRaw, RecordLeaders;
    var id := c.rawId(tx);
    AddKnown(c, s, leader, tx, room);
    var t := AddRaw(s, leader, id, tx, room);
    var u := t.(owner := t.owner[id := leader]);
    RecordKnown(c, u, id, leaders);
    QuietKeeps(c, s, RecordLeaders(u, id, leaders));
  }

  lemma CompleteKeeps(c: Config, s: State, id: TxId, found: bool, sig: SigVerdict, node: Node, time: Time, now: int)
    requires Inv(c, s) && c.Faithful()
    ensures Inv(c, Complete(c, s, id, found, sig, node, time, now))
  {
    if id in s.processed || !found || sig.SigError? {
    } else if sig.SigInvalid? {
      QuietKeeps(c, s, EvictMapped(s, id));
    } else {
      var t := AddStamp(s, id, node, time);
      QuietKeeps(c, s, t);
      if Have(t, id) >= NeedFor(c, LeadersOf(t, id)) { MoveKeeps(c, t, id, now); }
    }
  }

  lemma StepKeeps(c: Config, s: State, e: Step)
    requires Inv(c, s) && c.Faithful()
    ensures Inv(c, Exec(c, s, e))
  {
    hide Inv, Complete, Accept, Finalize, Move;
    match e
    case Submit(leader, tx, _, room, leaders) => AcceptKeeps(c, s, leader, tx, room, leaders);
    case Ingest(leader, tx, _, room, leaders) => AcceptKeeps(c, s, leader, tx, room, leaders);
    case Report(id, found, sig, node, time, now) => CompleteKeeps(c, s, id, found, sig, node, time, now);
    case Sweep(id, _, now) =>
      if id !in s.processed && Have(s, id) >= NeedFor(c, LeadersOf(s, id)) { MoveKeeps(c, s, id, now); }
    case FinalizeOne(h) => FinalizeKeeps(c, s, h);
    case _ => OtherKeeps(c, s, e);
  }

  lemma RemoveKeeps(c: Config, s: State, leader: Node, id: TxId)
    requires Inv(c, s)
    ensures var t := Remove(s, leader, id); Quiet(s, t) && TxsKnown(c, t)
  {
    DropKnown(c, s.pool, leader, id);
  }

  lemma OtherIsQuiet(c: Config, s: State, e: Step)
    requires Inv(c, s) && !e.Submit? && !e.Ingest? && !e.Report? && !e.Sweep? && !e.FinalizeOne?
    ensures Quiet(s, Exec(c, s, e)) && TxsKnown(c, Exec(c, s, e))
  {
    hide AllQuorate, OncePerTx, HeldWerePromoted, FinalizedOnce, RecordLeaders, Known, Remove;
    match e {
      case Evict(id) => if id in s.owner { RemoveKeeps(c, s, s.owner[id], id); }
      case Drain(leader, id) => RemoveKeeps(c, s, leader, id);
      case Reap(leader, id) => RemoveKeeps(c, s, leader, id);
      case Bound(leader, id, _) => RemoveKeeps(c, s, leader, id);
      case Recovery(leader, id, leaders) =>
        RecordKnown(c, if id in s.owner then s else s.(owner := s.owner[id := leader]), id, leaders);
      case _ =>
    }
  }

  lemma OtherKeeps(c: Config, s: State, e: Step)
    requires Inv(c, s) && !e.Submit? && !e.Ingest? && !e.Report? && !e.Sweep? && !e.FinalizeOne?
    ensures Inv(c, Exec(c, s, e))
  {
    hide Inv, Quiet, TxsKnown, Exec;
    OtherIsQuiet(c, s, e);
    QuietKeeps(c, s, Exec(c, s, e));
  }

  lemma {:induction false} InvHolds(r: Run, t: nat)
    requires r.Valid() && r.c.Faithful() && t < |r.states|
    ensures Inv(r.c, r.states[t])
  {
    if t > 0 {
      InvHolds(r, t - 1);
      assert r.StepAt(t - 1);
      StepKeeps(r.c, r.states[t - 1], r.steps[t - 1]);
    }
  }

  /** Over every run of submissions, ingests, reports, sweeps, evictions, recoveries and finalizations, from any
      restored pool: whatever moved to processing moved under its own hashes with its quorum of distinct validators,
      and whatever was finalized had been promoted before. */
  lemma EveryEventIsDue(r: Run, t: nat, i: nat)
    requires r.Valid() && r.c.Faithful() && t < |r.states| && i < |r.states[t].log|
    ensures var log := r.states[t].log; var e := log[i];
      && (e.ToProcessing? && e.leaders.Some? && |e.leaders.value| >= r.c.required ==> Count(e.stamps) >= r.c.required)
      && (e.ToProcessing? && e.leaders.Some? && |e.leaders.value| < r.c.required ==>
        Count(e.stamps) >= |e.leaders.value|)
      && (e.ToProcessing? ==> Count(e.stamps) >= 1)
      && (e.ToProcessing? ==>
        Count(e.stamps) >= NeedFor(r.c, e.leaders) && r.c.rawId(e.tx) == e.id && e.hash == r.c.validated(e.tx, e.clock))
      && (e.Finalized? ==> exists k :: 0 <= k < i && log[k].ToProcessing? && log[k].hash == e.hash)
  {
    InvHolds(r, t);
    var log := r.states[t].log;
    assert Quorate(r.c, log[i]);
    if log[i].Finalized? {
      var k :| 0 <= k < i && log[..i][k].ToProcessing? && log[..i][k].hash == log[i].hash;
      assert log[k] == log[..i][k];
    }
  }

  /** Over every such run a transaction moves to processing at most once, and a processing entry is finalized at most
      once. */
  lemma EveryEventIsOnce(r: Run, t: nat, i: nat, j: nat)
    requires r.Valid() && r.c.Faithful() && t < |r.states| && i < j < |r.states[t].log|
    ensures var log := r.states[t].log;
      && (log[i].ToProcessing? && log[j].ToProcessing? ==> log[i].id != log[j].id)
      && (log[i].Finalized? && log[j].Finalized? ==> log[i].hash != log[j].hash)
  {
    InvHolds(r, t);
  }
}
