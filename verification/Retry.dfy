/** The retry policy for transactions stuck below quorum: re-send the transaction and this node's own stored report. */
module Retry {
  import opened Ordering
  import opened JsMap

  type TxId = nat

  /** A report exactly as it was minted, its time included. */
  datatype Report = Report(rawTxId: TxId, taskId: nat, validatorId: nat, time: int)
  datatype Stuck = Stuck(rawTxId: TxId, submitter: nat, tx: Option<nat>, leaders: seq<nat>)

  datatype Books = Books(retries: map<TxId, nat>, myReports: map<TxId, Report>)
  datatype Sent = SentTx(submitter: nat, tx: nat, leaders: seq<nat>) | SentReport(r: Report)

  function IdsOf(stuck: seq<Stuck>): set<TxId> { set s | s in stuck :: s.rawTxId }

  /** Forget what is no longer stuck, and reports of transactions already processed. */
  function Prune(b: Books, stuck: seq<Stuck>, processed: set<TxId>): Books {
    Books(map id | id in b.retries && id in IdsOf(stuck) :: b.retries[id],
          map id | id in b.myReports && !(id in b.retries && id !in IdsOf(stuck)) &&
            id !in processed :: b.myReports[id])
  }

  function Tries(retries: map<TxId, nat>, id: TxId): nat { if id in retries then retries[id] else 0 }

  /** The transaction, where its content is at hand, and then the stored report, where there is one. */
  function SendsFor(b: Books, s: Stuck): (r: seq<Sent>) {
    (if s.tx.Some? then [SentTx(s.submitter, s.tx.value, s.leaders)] else []) +
    (if s.rawTxId in b.myReports then [SentReport(b.myReports[s.rawTxId])] else [])
  }

  /** One sweep over the stuck transactions, in order. */
  function Sweep(b: Books, stuck: seq<Stuck>, maxRetries: nat): (Books, seq<Sent>) {
    if stuck == [] then (b, [])
    else
      var s := stuck[|stuck| - 1];
      var (c, out) := Sweep(b, stuck[..|stuck| - 1], maxRetries);
      if Tries(c.retries, s.rawTxId) >= maxRetries then (c, out)
      else (c.(retries := c.retries[s.rawTxId := Tries(c.retries, s.rawTxId) + 1]), out + SendsFor(c, s))
  }

  function Tick(b: Books, stuck: seq<Stuck>, processed: set<TxId>, maxRetries: nat): (Books, seq<Sent>) {
    Sweep(Prune(b, stuck, processed), stuck, maxRetries)
  }

  // ---- a sweep, position by position ----

  /** How often a transaction stands in the list. */
  function Turns(stuck: seq<Stuck>, id: TxId): nat {
    if stuck == [] then 0
    else Turns(stuck[..|stuck| - 1], id) + if stuck[|stuck| - 1].rawTxId == id then 1 else 0
  }

  /** Turn i is taken while the retries before the sweep and the earlier turns stay below the limit. */
  predicate Taken(retries: map<TxId, nat>, stuck: seq<Stuck>, maxRetries: nat, i: nat)
    requires i < |stuck|
  {
    Tries(retries, stuck[i].rawTxId) + Turns(stuck[..i], stuck[i].rawTxId) < maxRetries
  }

  /** What the turns send, in order: for a turn taken the transaction, where its content is at hand, and then this
      node's stored report, where there is one. */
  function SentInTurn(b: Books, stuck: seq<Stuck>, maxRetries: nat): seq<Sent> {
    if stuck == [] then []
    else
      var n, last := |stuck| - 1, stuck[|stuck| - 1];
      var sent := SentInTurn(b, stuck[..n], maxRetries);
      if !Taken(b.retries, stuck, maxRetries, n) then sent
      else
        var tx := if last.tx.Some? then [SentTx(last.submitter, last.tx.value, last.leaders)] else [];
        sent + tx + if last.rawTxId in b.myReports then [SentReport(b.myReports[last.rawTxId])] else []
  }

  /** How many turns were not taken. */
  function Skipped(retries: map<TxId, nat>, stuck: seq<Stuck>, maxRetries: nat): nat {
    if stuck == [] then 0
    else
      Skipped(retries, stuck[..|stuck| - 1], maxRetries)
      + if Taken(retries, stuck, maxRetries, |stuck| - 1) then 0 else 1
  }

  /** Each turn taken is counted, up to the limit. */
  ghost predicate CountsTurns(before: map<TxId, nat>, after: map<TxId, nat>, stuck: seq<Stuck>, maxRetries: nat) {
    forall id :: Tries(after, id) == Counted(Tries(before, id), Turns(stuck, id), maxRetries)
  }

  function Counted(tries: nat, turns: nat, maxRetries: nat): nat {
    if tries >= maxRetries then tries else if tries + turns >= maxRetries then maxRetries else tries + turns
  }

  lemma {:induction false} SweepTakesTurns(b: Books, stuck: seq<Stuck>, maxRetries: nat)
    ensures var (c, out) := Sweep(b, stuck, maxRetries);
      && CountsTurns(b.retries, c.retries, stuck, maxRetries) && c.myReports == b.myReports
      && out == SentInTurn(b, stuck, maxRetries)
  {
    if stuck != [] {
      var n := |stuck| - 1;
      SweepTakesTurns(b, stuck[..n], maxRetries);
      var (c, out) := Sweep(b, stuck[..n], maxRetries);
      var id := stuck[n].rawTxId;
      assert Tries(c.retries, id) == Counted(Tries(b.retries, id), Turns(stuck[..n], id), maxRetries);
      assert Tries(c.retries, id) >= maxRetries <==> !Taken(b.retries, stuck, maxRetries, n);
      forall x ensures Tries(Sweep(b, stuck, maxRetries).0.retries, x)
          == Counted(Tries(b.retries, x), Turns(stuck, x), maxRetries)
      {
        assert Tries(c.retries, x) == Counted(Tries(b.retries, x), Turns(stuck[..n], x), maxRetries);
      }
    }
  }

  lemma SweepNext(b: Books, stuck: seq<Stuck>, maxRetries: nat, i: nat)
    requires i < |stuck|
    ensures var (c, out) := Sweep(b, stuck[..i], maxRetries);
      var n := Tries(c.retries, stuck[i].rawTxId);
      && Sweep(b, stuck[..i + 1], maxRetries)
        == (if n >= maxRetries then (c, out)
          else (c.(retries := c.retries[stuck[i].rawTxId := n + 1]), out + SendsFor(c, stuck[i])))
      && Skipped(b.retries, stuck[..i + 1], maxRetries)
        == Skipped(b.retries, stuck[..i], maxRetries) + if n >= maxRetries then 1 else 0
  {
    var id := stuck[i].rawTxId;
    SweepTakesTurns(b, stuck[..i], maxRetries);
    assert Tries(Sweep(b, stuck[..i], maxRetries).0.retries, id)
        == Counted(Tries(b.retries, id), Turns(stuck[..i], id), maxRetries);
    assert stuck[..i + 1][..i] == stuck[..i];
  }

  /** Only the counts of the transactions in the list and the stored reports matter. */
  lemma {:induction false} SameTurns(a: Books, b: Books, stuck: seq<Stuck>, maxRetries: nat)
    requires a.myReports == b.myReports && forall s :: s in stuck ==>
      Tries(a.retries, s.rawTxId) == Tries(b.retries, s.rawTxId)
    ensures SentInTurn(a, stuck, maxRetries) == SentInTurn(b, stuck, maxRetries)
    ensures Skipped(a.retries, stuck, maxRetries) == Skipped(b.retries, stuck, maxRetries)
  {
    if stuck != [] {
      assert stuck[|stuck| - 1] in stuck;
      SameTurns(a, b, stuck[..|stuck| - 1], maxRetries);
    }
  }

  lemma {:induction false} SweepCountsStuck(b: Books, stuck: seq<Stuck>, maxRetries: nat)
    ensures Sweep(b, stuck, maxRetries).0.retries.Keys <= b.retries.Keys + IdsOf(stuck)
  {
    if stuck != [] {
      SweepCountsStuck(b, stuck[..|stuck| - 1], maxRetries);
      assert stuck == stuck[..|stuck| - 1] + [stuck[|stuck| - 1]];
    }
  }

  /** A whole tick, from the books before it. */
  lemma TickInTurn(b: Books, stuck: seq<Stuck>, processed: set<TxId>, maxRetries: nat)
    ensures var (c, out) := Tick(b, stuck, processed, maxRetries);
      && (forall id :: id in IdsOf(stuck) ==>
            Tries(c.retries, id) == Counted(Tries(b.retries, id), Turns(stuck, id), maxRetries))
      && (forall id :: id !in IdsOf(stuck) ==> id !in c.retries)
      && c.myReports == Prune(b, stuck, processed).myReports
      && out == SentInTurn(Books(b.retries, c.myReports), stuck, maxRetries)
      && Skipped(Prune(b, stuck, processed).retries, stuck, maxRetries) == Skipped(b.retries, stuck, maxRetries)
  {
    var p := Prune(b, stuck, processed);
    SweepTakesTurns(p, stuck, maxRetries);
    SweepCountsStuck(p, stuck, maxRetries);
    assert forall s :: s in stuck ==> s.rawTxId in IdsOf(stuck);
    SameTurns(p, Books(b.retries, p.myReports), stuck, maxRetries);
  }

  class RetrySweep {
    var retries: map<TxId, nat>
    var myReports: map<TxId, Report>

    ghost function State(): Books reads this { Books(retries, myReports) }

    constructor ()
      ensures State() == Books(map[], map[])
    {
      retries, myReports := map[], map[];
    }

    method RunTick(stuck: seq<Stuck>, processed: set<TxId>, maxRetries: nat) returns (out: seq<Sent>, gaveUp: nat)
      modifies this
      ensures (State(), out) == Tick(old(State()), stuck, processed, maxRetries)
      // A report goes when its transaction was processed, or was counted and is stuck no longer.
      ensures forall id :: id in myReports <==>
        id in old(myReports) && id !in processed && (id in old(retries) ==> id in IdsOf(stuck))
      ensures forall id :: id in myReports ==> myReports[id] == old(myReports)[id]
      // A count survives while its transaction is stuck, and takes its turns up to the limit.
      ensures forall id :: id in IdsOf(stuck) ==>
        Tries(retries, id) == Counted(Tries(old(retries), id), Turns(stuck, id), maxRetries)
      ensures forall id :: id !in IdsOf(stuck) ==> id !in retries
      // What goes out, and how many turns are given up.
      ensures out == SentInTurn(Books(old(retries), myReports), stuck, maxRetries)
      ensures gaveUp == Skipped(old(retries), stuck, maxRetries)
    {
      TickInTurn(State(), stuck, processed, maxRetries);
      PruneStopped(stuck, processed);
      hide SentInTurn, Turns, Skipped, Sweep, Counted;
      out, gaveUp := SweepStuck(stuck, maxRetries);
    }

    method PruneStopped(stuck: seq<Stuck>, processed: set<TxId>)
      modifies this
      ensures State() == Prune(old(State()), stuck, processed)
    {
      var stuckIds := IdsOf(stuck);
      var tracked := retries;
      retries := map id | id in tracked && id in stuckIds :: tracked[id];
      myReports := map id | id in myReports && !(id in tracked && id !in stuckIds) && id !in processed :: myReports[id];
    }

    method SweepStuck(stuck: seq<Stuck>, maxRetries: nat) returns (out: seq<Sent>, gaveUp: nat)
      modifies this
      ensures (State(), out) == Sweep(old(State()), stuck, maxRetries)
      ensures gaveUp == Skipped(old(retries), stuck, maxRetries)
    {
      ghost var start := State();
      assert Sweep(start, stuck[..0], maxRetries) == (start, []) && Skipped(retries, stuck[..0], maxRetries) == 0;
      hide Sweep, Skipped;
      out, gaveUp := [], 0;
      var i := 0;
      while i < |stuck|
        invariant 0 <= i <= |stuck|
        invariant (State(), out) == Sweep(start, stuck[..i], maxRetries)
        invariant gaveUp == Skipped(start.retries, stuck[..i], maxRetries)
      {
        SweepNext(start, stuck, maxRetries, i);
        var s := stuck[i];
        var n := if s.rawTxId in retries then retries[s.rawTxId] else 0;
        if n >= maxRetries {
          gaveUp := gaveUp + 1;
        } else {
          var sends := if s.tx.Some? then [SentTx(s.submitter, s.tx.value, s.leaders)] else [];
          if s.rawTxId in myReports { sends := sends + [SentReport(myReports[s.rawTxId])]; }
          assert sends == SendsFor(State(), s);
          hide SendsFor;
          retries, out := retries[s.rawTxId := n + 1], out + sends;
        }
        i := i + 1;
      }
      assert stuck[..i] == stuck;
    }
  }

  // ---- what a sweep can and cannot send ----

  /** How often a report of this transaction is sent. */
  function ReportsOf(out: seq<Sent>, id: TxId): nat {
    if out == [] then 0
    else
      var last := out[|out| - 1];
      ReportsOf(out[..|out| - 1], id) + if last.SentReport? && last.r.rawTxId == id then 1 else 0
  }

  lemma {:induction false} ReportsAppend(a: seq<Sent>, b: seq<Sent>, id: TxId)
    ensures ReportsOf(a + b, id) == ReportsOf(a, id) + ReportsOf(b, id)
  {
    if b == [] {
      assert a + b == a;
    } else {
      assert (a + b)[..|a + b| - 1] == a + b[..|b| - 1];
      ReportsAppend(a, b[..|b| - 1], id);
    }
  }

  /** Every report in the book is filed under its own transaction. */
  ghost predicate Filed(b: Books) { forall id :: id in b.myReports ==> b.myReports[id].rawTxId == id }

  lemma OneSend(b: Books, s: Stuck, id: TxId)
    requires Filed(b)
    ensures ReportsOf(SendsFor(b, s), id) <= if s.rawTxId == id then 1 else 0
  {
    var tx := if s.tx.Some? then [SentTx(s.submitter, s.tx.value, s.leaders)] else [];
    if s.tx.Some? { assert tx[..0] == []; }
    assert ReportsOf(tx, id) == ReportsOf([], id);
    if s.rawTxId in b.myReports {
      var r := [SentReport(b.myReports[s.rawTxId])];
      assert r[..0] == [];
      ReportsAppend(tx, r, id);
    } else {
      assert SendsFor(b, s) == tx + [] == tx;
    }
  }

  /** Each report sent was stored before, unchanged; the book of reports is not written; and every re-send of a
      transaction's report is charged to its retry count, which never passes the limit. */
  lemma {:induction false} SweepFacts(b: Books, stuck: seq<Stuck>, maxRetries: nat, id: TxId)
    requires Filed(b) && Tries(b.retries, id) <= maxRetries
    ensures var (c, out) := Sweep(b, stuck, maxRetries);
      && c.myReports == b.myReports
      && (forall i :: 0 <= i < |out| && out[i].SentReport? ==>
        out[i].r.rawTxId in b.myReports && out[i].r == b.myReports[out[i].r.rawTxId])
      && Tries(b.retries, id) + ReportsOf(out, id) <= Tries(c.retries, id) <= maxRetries
  {
    if stuck == [] {
      assert Sweep(b, stuck, maxRetries) == (b, []);
    } else {
      var n := |stuck| - 1;
      SweepFacts(b, stuck[..n], maxRetries, id);
      var (c, out) := Sweep(b, stuck[..n], maxRetries);
      hide ReportsOf;
      OneSend(c, stuck[n], id);
      ReportsAppend(out, SendsFor(c, stuck[n]), id);
    }
  }

  /** A retry never mints a report: what it re-sends is what this node stored, time and all, however many sweeps ran;
      and one sweep re-sends a transaction's report no more often than its retry count has room for. */
  lemma RetriesRepeatVerbatim(b: Books, stuck: seq<Stuck>, processed: set<TxId>, maxRetries: nat, id: TxId)
    requires Filed(b) && Tries(b.retries, id) <= maxRetries
    ensures var (c, out) := Tick(b, stuck, processed, maxRetries);
      && Filed(c) && (forall k :: k in c.myReports ==> k in b.myReports && c.myReports[k] == b.myReports[k])
      && (forall i :: 0 <= i < |out| && out[i].SentReport? ==>
        out[i].r.rawTxId in b.myReports && out[i].r == b.myReports[out[i].r.rawTxId])
      && (id in IdsOf(stuck) ==> Tries(b.retries, id) + ReportsOf(out, id) <= Tries(c.retries, id))
      && Tries(c.retries, id) <= maxRetries
  {
    var p := Prune(b, stuck, processed);
    SweepFacts(p, stuck, maxRetries, id);
  }
}
