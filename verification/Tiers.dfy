/** What becomes of a promoted transaction: it waits in the processing tier as it was promoted, and reaches the final
    tier when it is finalized. */
module Tiers {
  import opened Ordering
  import opened JsMap
  import opened Workflow

  // ---- what a step does to the tiers ----

  ghost predicate SameTiers(s: State, t: State) { t.log == s.log && t.processing == s.processing && t.final == s.final }

  /** The event of a move to processing. */
  ghost predicate Moved(c: Config, s: State, t: State) {
    && |t.log| == |s.log| + 1 && t.log[..|s.log|] == s.log && t.log[|s.log|].ToProcessing? && t.final == s.final
    && var e := t.log[|s.log|];
       t.processing == if c.finalizes then s.processing[e.hash := Processing(e.id, e.tx, e.clock)] else s.processing
  }

  lemma RecordTiers(s: State, x: TxId, leaders: seq<Node>)
    ensures SameTiers(s, RecordLeaders(s, x, leaders))
  {
  }

  lemma AcceptTiers(s: State, a: Node, x: TxId, tx: Tx, room: bool, leaders: seq<Node>)
    ensures SameTiers(s, Accept(s, a, x, tx, room, leaders))
  {
    hide RecordLeaders;
    var t := AddRaw(s, a, x, tx, room);
    RecordTiers(t.(owner := t.owner[x := a]), x, leaders);
  }

  lemma StampTiers(s: State, id: TxId, node: Node, time: Time)
    ensures SameTiers(s, AddStamp(s, id, node, time))
  {
  }

  lemma RemoveTiers(s: State, a: Node, x: TxId)
    ensures SameTiers(s, Remove(s, a, x))
  {
  }

  lemma EvictTiers(s: State, x: TxId)
    ensures SameTiers(s, EvictMapped(s, x))
  {
  }

  lemma RecoverTiers(s: State, a: Node, x: TxId, leaders: seq<Node>)
    ensures SameTiers(s, Recover(s, a, x, leaders))
  {
    hide RecordLeaders;
    RecordTiers(if x in s.owner then s else s.(owner := s.owner[x := a]), x, leaders);
  }

  lemma MoveTiers(c: Config, s: State, id: TxId, now: int)
    ensures SameTiers(s, Move(c, s, id, now)) || Moved(c, s, Move(c, s, id, now))
  {
  }

  lemma StepTiers(c: Config, s: State, e: Step)
    requires !e.FinalizeOne? && !e.DropOne?
    ensures SameTiers(s, Exec(c, s, e)) || Moved(c, s, Exec(c, s, e))
  {
    hide RecordLeaders, AddStamp, Remove, Move, Recover, EvictMapped, Accept;
    match e
    case Submit(a, tx, _, room, leaders) => AcceptTiers(s, a, c.rawId(tx), tx, room, leaders);
    case Ingest(a, tx, _, room, leaders) => AcceptTiers(s, a, c.rawId(tx), tx, room, leaders);
    case Report(id, found, sig, node, time, now) =>
      StampTiers(s, id, node, time);
      EvictTiers(s, id);
      MoveTiers(c, AddStamp(s, id, node, time), id, now);
    case Sweep(id, _, now) => MoveTiers(c, s, id, now);
    case Recovery(a, x, leaders) => RecoverTiers(s, a, x, leaders);
    case Evict(x) => EvictTiers(s, x);
    case Drain(a, x) => RemoveTiers(s, a, x);
    case Reap(a, x) => RemoveTiers(s, a, x);
    case Bound(a, x, _) => RemoveTiers(s, a, x);
    case _ =>
  }

  // ---- the tiers tell the truth ----

  /** Event k promoted h, as that entry says. */
  ghost predicate PromotedAs(log: seq<Event>, k: nat, h: TxHash, p: Processing) {
    k < |log| && log[k].ToProcessing? && log[k].hash == h && log[k].id == p.rawTxId && log[k].tx == p.tx &&
      log[k].clock == p.clock
  }

  /** Every processing entry is the transaction, under the id and clock, that some event promoted. */
  ghost predicate ProcessingTrue(s: State) {
    forall h :: h in s.processing ==> exists k: nat :: PromotedAs(s.log, k, h, s.processing[h])
  }

  /** Event k, before event i, promoted h as that transaction. */
  ghost predicate PromotedBefore(log: seq<Event>, k: nat, i: nat, h: TxHash, tx: Tx) {
    k < i <= |log| && log[k].ToProcessing? && log[k].hash == h && log[k].tx == tx
  }

  /** What was finalized is in the final tier, as the transaction that had been promoted. */
  ghost predicate FinalTrue(s: State) {
    forall i: nat :: i < |s.log| && s.log[i].Finalized? ==>
      s.log[i].hash in s.final && exists k: nat :: PromotedBefore(s.log, k, i, s.log[i].hash, s.final[s.log[i].hash])
  }

  lemma LogGrown(a: seq<Event>, b: seq<Event>)
    requires a <= b
    ensures forall k: nat, h, p :: PromotedAs(a, k, h, p) ==> PromotedAs(b, k, h, p)
    ensures forall k: nat, i: nat, h, tx :: PromotedBefore(a, k, i, h, tx) ==> PromotedBefore(b, k, i, h, tx)
  {
  }

  lemma MovedKeeps(c: Config, s: State, t: State)
    requires ProcessingTrue(s) && FinalTrue(s) && Moved(c, s, t)
    ensures ProcessingTrue(t) && FinalTrue(t)
  {
    var e := t.log[|s.log|];
    assert s.log <= t.log;
    LogGrown(s.log, t.log);
    forall h | h in t.processing ensures exists k: nat :: PromotedAs(t.log, k, h, t.processing[h]) {
      if c.finalizes && h == e.hash {
        assert PromotedAs(t.log, |s.log|, h, t.processing[h]);
      } else {
        var k: nat :| PromotedAs(s.log, k, h, s.processing[h]);
      }
    }
    forall i: nat | i < |t.log| && t.log[i].Finalized?
      ensures t.log[i].hash in t.final &&
        exists k: nat :: PromotedBefore(t.log, k, i, t.log[i].hash, t.final[t.log[i].hash])
    {
      assert t.log[i] == s.log[i];
      var k: nat :| PromotedBefore(s.log, k, i, s.log[i].hash, s.final[s.log[i].hash]);
    }
  }

  lemma FinalizeKeeps(s: State, h: TxHash)
    requires ProcessingTrue(s) && FinalTrue(s) && FinalizedOnce(s)
    ensures ProcessingTrue(Finalize(s, h)) && FinalTrue(Finalize(s, h))
  {
    var t := Finalize(s, h);
    if h in s.processing {
      assert s.log <= t.log;
      LogGrown(s.log, t.log);
      forall g | g in t.processing ensures exists k: nat :: PromotedAs(t.log, k, g, t.processing[g]) {
        var k: nat :| PromotedAs(s.log, k, g, s.processing[g]);
      }
      forall i: nat | i < |t.log| && t.log[i].Finalized?
        ensures t.log[i].hash in t.final &&
          exists k: nat :: PromotedBefore(t.log, k, i, t.log[i].hash, t.final[t.log[i].hash])
      {
        if i < |s.log| {
          assert t.log[i] == s.log[i];
          var k: nat :| PromotedBefore(s.log, k, i, s.log[i].hash, s.final[s.log[i].hash]);
        } else {
          var k: nat :| PromotedAs(s.log, k, h, s.processing[h]);
          assert PromotedBefore(t.log, k, i, h, t.final[h]);
        }
      }
    }
  }

  lemma {:induction false} TiersTrue(r: Run, t: nat)
    requires r.Valid() && r.c.Faithful() && t < |r.states|
    ensures ProcessingTrue(r.states[t]) && FinalTrue(r.states[t])
  {
    hide Exec, Inv;
    if t > 0 {
      TiersTrue(r, t - 1);
      assert r.StepAt(t - 1);
      InvHolds(r, t - 1);
      TiersStep(r.c, r.states[t - 1], r.steps[t - 1]);
    }
  }

  lemma TiersStep(c: Config, s: State, e: Step)
    requires ProcessingTrue(s) && FinalTrue(s) && Inv(c, s)
    ensures ProcessingTrue(Exec(c, s, e)) && FinalTrue(Exec(c, s, e))
  {
    hide Known, AllQuorate, OncePerTx, HeldWerePromoted;
    if e.FinalizeOne? {
      FinalizeKeeps(s, e.hash);
    } else if !e.DropOne? {
      hide Exec;
      StepTiers(c, s, e);
      if Moved(c, s, Exec(c, s, e)) { MovedKeeps(c, s, Exec(c, s, e)); }
    }
  }

  /** Over every run a finalized transaction is in the final tier, and it is the one promoted, earlier, under that
      hash. */
  lemma FinalizedIsStored(r: Run, t: nat, i: nat)
    requires r.Valid() && r.c.Faithful() && t < |r.states| && i < |r.states[t].log| && r.states[t].log[i].Finalized?
    ensures var log, h, final := r.states[t].log, r.states[t].log[i].hash, r.states[t].final;
      h in final && exists k: nat :: k < i && log[k].ToProcessing? && log[k].hash == h && log[k].tx == final[h]
  {
    TiersTrue(r, t);
    var log, h, final := r.states[t].log, r.states[t].log[i].hash, r.states[t].final;
    var k: nat :| PromotedBefore(log, k, i, h, final[h]);
    assert k < i && log[k].ToProcessing? && log[k].hash == h && log[k].tx == final[h];
  }

  // ---- nothing promoted is lost ----

  ghost predicate DroppedBefore(r: Run, t: nat, h: TxHash) requires t <= |r.steps| {
    exists u: nat :: u < t && r.steps[u] == DropOne(h)
  }

  /** h waits in processing or is final, as that transaction, or was dropped from processing. */
  ghost predicate Accounted(r: Run, t: nat, h: TxHash, tx: Tx) requires t < |r.states| && t <= |r.steps| {
    var s := r.states[t];
    (h in s.processing && s.processing[h].tx == tx) || (h in s.final && s.final[h] == tx) || DroppedBefore(r, t, h)
  }

  lemma AccountedStep(r: Run, t: nat, k: nat)
    requires r.Valid() && r.c.Faithful() && t < |r.steps|
    requires k < |r.states[t].log| && r.states[t].log[k].ToProcessing?
    requires Accounted(r, t, r.states[t].log[k].hash, r.states[t].log[k].tx)
    ensures Accounted(r, t + 1, r.states[t].log[k].hash, r.states[t].log[k].tx)
  {
    hide Inv, Exec;
    assert r.StepAt(t);
    InvHolds(r, t);
    InvHolds(r, t + 1);
    TiersTrue(r, t);
    var s, s', e := r.states[t], r.states[t + 1], r.steps[t];
    var h, tx := s.log[k].hash, s.log[k].tx;
    if DroppedBefore(r, t, h) {
      var u: nat :| u < t && r.steps[u] == DropOne(h);
    } else {
      HashOfOne(r.c, s, k);
      TierStepOf(r.c, s, e, k);
      if e == DropOne(h) { assert DroppedBefore(r, t + 1, h); }
    }
  }

  lemma HashOfOne(c: Config, s: State, k: nat)
    requires Inv(c, s) && k < |s.log| && s.log[k].ToProcessing?
    ensures s.log[k].hash == c.validated(s.log[k].tx, s.log[k].clock)
  {
    assert Quorate(c, s.log[k]);
  }

  /** A step leaves a promoted transaction where it is, finalizes it or drops it. */
  lemma TierStepOf(c: Config, s: State, e: Step, k: nat)
    requires Inv(c, s) && Inv(c, Exec(c, s, e)) && c.Faithful() && ProcessingTrue(s) && k < |s.log| &&
      s.log[k].ToProcessing?
    ensures var h, tx, t := s.log[k].hash, s.log[k].tx, Exec(c, s, e);
      && (h in s.processing && s.processing[h].tx == tx ==>
            (h in t.processing && t.processing[h].tx == tx) || (h in t.final && t.final[h] == tx) || e == DropOne(h))
      && (h in s.final && s.final[h] == tx ==> h in t.final && t.final[h] == tx)
  {
    hide Known, AllQuorate, OncePerTx, HeldWerePromoted, FinalizedOnce, Inv;
    var h, tx := s.log[k].hash, s.log[k].tx;
    HashOfOne(c, s, k);
    if e.FinalizeOne? {
      if e.hash == h && h in s.processing {
        var m: nat :| PromotedAs(s.log, m, h, s.processing[h]);
        HashOfOne(c, s, m);
      }
    } else if !e.DropOne? {
      StepTiers(c, s, e);
      var t := Exec(c, s, e);
      hide Exec;
      if Moved(c, s, t) { HashOfOne(c, t, |s.log|); }
    }
  }

  lemma {:induction false} StaysAccounted(r: Run, t: nat, k: nat)
    requires r.Valid() && r.c.Faithful() && r.c.finalizes && t < |r.states|
    requires k < |r.states[t].log| && r.states[t].log[k].ToProcessing?
    ensures Accounted(r, t, r.states[t].log[k].hash, r.states[t].log[k].tx)
  {
    hide Inv, Exec;
    if t > 0 {
      assert r.StepAt(t - 1);
      var s, s', e := r.states[t - 1], r.states[t], r.steps[t - 1];
      LogStep(r.c, s, e);
      if k < |s.log| {
        assert s'.log[k] == s.log[k];
        StaysAccounted(r, t - 1, k);
        AccountedStep(r, t - 1, k);
      }
    }
  }

  /** The log only grows, and what a step promotes it puts in the processing tier of a node that finalizes. */
  ghost predicate PutsPromoted(c: Config, s: State, t: State) {
    && s.log <= t.log
    && forall k :: |s.log| <= k < |t.log| && t.log[k].ToProcessing? && c.finalizes ==>
         t.log[k].hash in t.processing && t.processing[t.log[k].hash].tx == t.log[k].tx
  }

  lemma MovedPuts(c: Config, s: State, t: State)
    requires SameTiers(s, t) || Moved(c, s, t)
    ensures PutsPromoted(c, s, t)
  {
  }

  lemma FinalizePuts(c: Config, s: State, h: TxHash)
    ensures PutsPromoted(c, s, Finalize(s, h))
  {
  }

  lemma LogStep(c: Config, s: State, e: Step)
    ensures PutsPromoted(c, s, Exec(c, s, e))
  {
    hide PutsPromoted, Finalize, Accept, Complete, Promote, EvictMapped, Remove, Recover, Rehydrate;
    match e
    case FinalizeOne(h) => FinalizePuts(c, s, h);
    case DropOne(h) => DropPuts(c, s, h);
    case _ => StepTiers(c, s, e); MovedPuts(c, s, Exec(c, s, e));
  }

  lemma DropPuts(c: Config, s: State, h: TxHash)
    ensures PutsPromoted(c, s, s.(processing := s.processing - {h}))
  {
  }

  /** On a node that finalizes nothing promoted is lost: it waits in processing, or it is final, or it was dropped. */
  lemma PromotedIsKept(r: Run, t: nat, k: nat)
    requires r.Valid() && r.c.Faithful() && r.c.finalizes && t < |r.states|
    requires k < |r.states[t].log| && r.states[t].log[k].ToProcessing?
    ensures var e, s := r.states[t].log[k], r.states[t];
      || (e.hash in s.processing && s.processing[e.hash].tx == e.tx)
      || (e.hash in s.final && s.final[e.hash] == e.tx)
      || exists u: nat :: u < t && r.steps[u] == DropOne(e.hash)
  {
    StaysAccounted(r, t, k);
  }
}
