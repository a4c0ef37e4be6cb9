/** Gossip batching: raw transactions and reports wait a moment and go out together, a signer's key once per batch. */
module Gossip {
  import opened Ordering
  import opened JsMap

  type Address = nat
  type Key = nat

  /** `from` is None when the transaction names no single signer. */
  datatype Tx = Tx(from: Option<Address>, body: nat)
  datatype Msg =
    | RawTx(leader: nat, tx: Tx, leaders: Option<seq<nat>>, signerKey: Option<Key>)
    | ValidationReport(rawTxId: nat, taskId: nat, validatorId: nat, time: int)
    | Plain(what: nat)

  /** What travels: a message alone, or several with the signers' keys beside them. */
  datatype Wire = Single(m: Msg) | Batch(items: seq<Msg>, keys: Option<map<Address, Key>>)

  datatype Event =
    | RawTxReceived(leader: nat, tx: Tx, leaders: Option<seq<nat>>, signerKey: Option<Key>)
    | ReportReceived(rawTxId: nat, taskId: nat, validatorId: nat, time: int)
    | PlainReceived(what: nat)

  /** The length of a message's JSON, of a key and of an address; and the cap. */
  datatype Sizes = Sizes(item: Msg -> nat, key: Key -> nat, address: Address -> nat, cap: nat) {
    function KeyCost(a: Address, k: Key): nat { key(k) + address(a) + 6 }
  }

  // ---- packing ----

  /** A raw transaction whose signer is named gives its key to the batch. */
  predicate Keyed(m: Msg) { m.RawTx? && m.signerKey.Some? && m.tx.from.Some? }

  function Strip(m: Msg): Msg { if Keyed(m) then m.(signerKey := None) else m }

  function StripAll(ms: seq<Msg>): (r: seq<Msg>)
    ensures |r| == |ms|
  {
    seq(|ms|, i requires 0 <= i < |ms| => Strip(ms[i]))
  }

  /** The last key each signer gave. */
  function KeysIn(ms: seq<Msg>): map<Address, Key> {
    if ms == [] then map[]
    else
      var n := |ms| - 1;
      if Keyed(ms[n]) then KeysIn(ms[..n])[ms[n].tx.from.value := ms[n].signerKey.value] else KeysIn(ms[..n])
  }

  function WaitingKeys(ms: seq<Msg>): Option<map<Address, Key>> {
    if KeysIn(ms) == map[] then None else Some(KeysIn(ms))
  }

  /** The bytes charged for the waiting messages: each item, and a key whenever it differs from its signer's last. */
  function Charged(z: Sizes, ms: seq<Msg>): nat {
    if ms == [] then 0
    else
      var n := |ms| - 1;
      Charged(z, ms[..n]) + z.item(Strip(ms[n])) + (if Keyed(ms[n]) then KeyCharge(z, KeysIn(ms[..n]), ms[n]) else 0)
  }

  function KeyCharge(z: Sizes, keys: map<Address, Key>, m: Msg): nat
    requires Keyed(m)
  {
    var a, k := m.tx.from.value, m.signerKey.value;
    if a in keys && keys[a] == k then 0 else z.KeyCost(a, k)
  }

  function GiveKey(m: Msg, key: Option<Key>): Msg { if m.RawTx? && key.Some? then m.(signerKey := key) else m }

  function LookUp(keys: Option<map<Address, Key>>, from: Option<Address>): Option<Key> {
    if keys.Some? && from.Some? && from.value in keys.value then Some(keys.value[from.value]) else None
  }

  function Pack(items: seq<Msg>, keys: Option<map<Address, Key>>): Wire
    requires items != []
  {
    if |items| == 1 then Single(if items[0].RawTx? then GiveKey(items[0], LookUp(keys, items[0].tx.from)) else items[0])
    else Batch(items, keys)
  }

  // ---- receiving ----

  function EventOf(m: Msg): Event {
    match m
    case RawTx(leader, tx, leaders, key) => RawTxReceived(leader, tx, leaders, key)
    case ValidationReport(id, task, v, t) => ReportReceived(id, task, v, t)
    case Plain(what) => PlainReceived(what)
  }

  /** A receiver learns everything a message says, and what kind it was. */
  lemma EventsTellAll(a: Msg, b: Msg)
    ensures EventOf(a) == EventOf(b) <==> a == b
    ensures EventOf(a).RawTxReceived? <==> a.RawTx?
    ensures EventOf(a).ReportReceived? <==> a.ValidationReport?
  {
  }

  /** An item of a batch, with its signer's key put back when it carries none. */
  function Restore(keys: Option<map<Address, Key>>, m: Msg): Msg {
    if m.RawTx? && m.signerKey.None? then GiveKey(m, LookUp(keys, m.tx.from)) else m
  }

  function ItemEvents(keys: Option<map<Address, Key>>, items: seq<Msg>): (r: seq<Event>)
    ensures |r| == |items|
  {
    seq(|items|, i requires 0 <= i < |items| => EventOf(Restore(keys, items[i])))
  }

  function Events(w: Wire): seq<Event> {
    match w
    case Single(m) => [EventOf(m)]
    case Batch(items, keys) => ItemEvents(keys, items)
  }

  function AllEvents(ws: seq<Wire>): seq<Event> {
    if ws == [] then [] else AllEvents(ws[..|ws| - 1]) + Events(ws[|ws| - 1])
  }

  /** What the messages would have caused one by one. */
  function Singly(ms: seq<Msg>): (r: seq<Event>)
    ensures |r| == |ms|
  {
    seq(|ms|, i requires 0 <= i < |ms| => EventOf(ms[i]))
  }

  class Receiver {
    var emitted: seq<Event>

    constructor ()
      ensures emitted == []
    {
      emitted := [];
    }

    method HandleMessage(w: Wire)
      modifies this
      ensures emitted == old(emitted) + Events(w)
    {
      match w {
        case Single(m) => emitted := emitted + [EventOf(m)];
        case Batch(items, keys) =>
          ghost var all := ItemEvents(keys, items);
          var i := 0;
          while i < |items|
            invariant 0 <= i <= |items|
            invariant emitted == old(emitted) + all[..i]
          {
            var m := items[i];
            var key := if m.RawTx? && m.signerKey.None? then LookUp(keys, m.tx.from) else None;
            emitted := emitted + [EventOf(if key.Some? then m.(signerKey := key) else m)];
            i := i + 1;
          }
          assert all[..i] == all;
      }
    }
  }

  // ---- the outbox ----

  function Flat<T>(batches: seq<seq<T>>): seq<T> {
    if batches == [] then [] else Flat(batches[..|batches| - 1]) + batches[|batches| - 1]
  }

  function PackAll(batches: seq<seq<Msg>>): (r: seq<Wire>)
    requires forall i :: 0 <= i < |batches| ==> batches[i] != []
    ensures |r| == |batches|
  {
    seq(|batches|, i requires 0 <= i < |batches| => Pack(StripAll(batches[i]), WaitingKeys(batches[i])))
  }

  /** What a message is weighed at before it joins: itself and, if it carries one, its signer's key. */
  function Weight(z: Sizes, m: Msg): nat {
    z.item(Strip(m)) + if Keyed(m) then z.key(m.signerKey.value) + z.address(m.tx.from.value) + 6 else 0
  }

  class ConsensusGossip {
    const sizes: Sizes
    var outbox: seq<Msg>
    var outboxBytes: int
    var outboxKeys: Option<map<Address, Key>>
    var sent: seq<Wire>
    /** The messages as they were handed in: those waiting, and those gone, batch by batch. */
    ghost var waiting: seq<Msg>
    ghost var batches: seq<seq<Msg>>

    ghost predicate Valid() reads this {
      && outbox == StripAll(waiting) && outboxKeys == WaitingKeys(waiting) && outboxBytes == Charged(sizes, waiting)
      && (|waiting| > 1 ==> outboxBytes <= sizes.cap)
      && (forall i :: 0 <= i < |batches| ==>
        batches[i] != [] && (|batches[i]| > 1 ==> Charged(sizes, batches[i]) <= sizes.cap))
      && sent == PackAll(batches)
    }

    /** Everything handed in so far, in order. */
    ghost function HandedIn(): seq<Msg> reads this { Flat(batches) + waiting }

    constructor (sizes: Sizes)
      ensures Valid() && this.sizes == sizes && HandedIn() == [] && batches == []
    {
      this.sizes := sizes;
      outbox, outboxBytes, outboxKeys, sent := [], 0, None, [];
      waiting, batches := [], [];
    }

    method Flush()
      requires Valid()
      modifies this
      ensures Valid() && waiting == [] && HandedIn() == old(HandedIn())
      ensures batches == if old(waiting) == [] then old(batches) else old(batches) + [old(waiting)]
      // Nothing waiting sends nothing; one message goes out as it came in, key and all; more go out as one batch.
      ensures old(waiting) == [] ==> sent == old(sent)
      ensures |old(waiting)| == 1 ==> sent == old(sent) + [Single(old(waiting)[0])]
      ensures |old(waiting)| > 1 ==> sent == old(sent) + [Batch(old(outbox), old(outboxKeys))]
    {
      if |waiting| == 1 { PackOfOne(waiting[0]); }
      assert KeysIn([]) == map[] && Charged(sizes, []) == 0 && StripAll([]) == [];
      hide Strip, KeysIn, Charged, Pack, GiveKey, LookUp;
      if outbox == [] { return; }
      var items, keys := outbox, outboxKeys;
      outbox, outboxBytes, outboxKeys := [], 0, None;
      var out := PackUp(items, keys);
      sent := sent + [out];
      FlatAppend(batches, waiting);
      batches := batches + [waiting];
      waiting := [];
    }

    static method PackUp(items: seq<Msg>, keys: Option<map<Address, Key>>) returns (out: Wire)
      requires items != []
      ensures out == Pack(items, keys)
    {
      if |items| == 1 {
        var key := if items[0].RawTx? then LookUp(keys, items[0].tx.from) else None;
        return Single(if key.Some? then items[0].(signerKey := key) else items[0]);
      }
      return Batch(items, keys);
    }

    /** The message joins what is waiting, unless it would take a non-empty outbox over the cap: then what waited goes
        out as a batch and the message waits alone. */
    method Enqueue(m: Msg)
      requires Valid()
      modifies this
      ensures Valid() && HandedIn() == old(HandedIn()) + [m]
      ensures old(waiting) != [] && Charged(sizes, old(waiting)) + Weight(sizes, m) > sizes.cap ==>
        batches == old(batches) + [old(waiting)] && waiting == [m]
      ensures !(old(waiting) != [] && Charged(sizes, old(waiting)) + Weight(sizes, m) > sizes.cap) ==>
        batches == old(batches) && waiting == old(waiting) + [m]
    {
      hide StripAll, KeysIn, Charged, PackAll, WaitingKeys, Flat;
      var item, key: Option<Key> := m, None;
      if m.RawTx? && m.signerKey.Some? && m.tx.from.Some? {
        item, key := m.(signerKey := None), m.signerKey;
      }
      var size := sizes.item(item) + if key.Some? then sizes.KeyCost(m.tx.from.value, key.value) else 0;
      if outbox != [] && outboxBytes + size > sizes.cap { Flush(); }
      Push(m, item, key, size);
    }

    method Push(m: Msg, item: Msg, key: Option<Key>, size: nat)
      requires Valid() && item == Strip(m) && key == (if Keyed(m) then m.signerKey else None)
      requires size == sizes.item(item) + if key.Some? then sizes.KeyCost(m.tx.from.value, key.value) else 0
      requires waiting == [] || outboxBytes + size <= sizes.cap
      modifies this`outbox, this`outboxBytes, this`outboxKeys, this`waiting
      ensures Valid() && waiting == old(waiting) + [m]
    {
      OneMore(sizes, waiting, m);
      hide StripAll, KeysIn, Charged, PackAll;
      outbox := outbox + [item];
      outboxBytes := outboxBytes + size;
      if key.Some? {
        var known := if outboxKeys.Some? then outboxKeys.value else map[];
        if m.tx.from.value in known && known[m.tx.from.value] == key.value {
          outboxBytes := outboxBytes - sizes.KeyCost(m.tx.from.value, key.value);
          assert known[m.tx.from.value := key.value] == known;
        } else {
          assert m.tx.from.value in known[m.tx.from.value := key.value];
          outboxKeys := Some(known[m.tx.from.value := key.value]);
        }
      }
      waiting := waiting + [m];
    }
  }

  lemma PackOfOne(m: Msg)
    ensures Pack(StripAll([m]), WaitingKeys([m])) == Single(m)
  {
    var ms := [m];
    assert ms[..0] == [] && KeysIn(ms[..0]) == map[];
    assert StripAll(ms) == [Strip(m)];
    if Keyed(m) {
      var a := m.tx.from.value;
      assert a in KeysIn(ms) && KeysIn(ms)[a] == m.signerKey.value;
      assert GiveKey(Strip(m), LookUp(WaitingKeys(ms), m.tx.from)) == m;
    }
  }

  lemma OneMore(z: Sizes, ms: seq<Msg>, m: Msg)
    ensures StripAll(ms + [m]) == StripAll(ms) + [Strip(m)]
    ensures KeysIn(ms + [m]) == if Keyed(m) then KeysIn(ms)[m.tx.from.value := m.signerKey.value] else KeysIn(ms)
    ensures Charged(z, ms + [m]) == Charged(z, ms) + z.item(Strip(m)) +
      (if Keyed(m) then KeyCharge(z, KeysIn(ms), m) else 0)
  {
    assert (ms + [m])[..|ms|] == ms;
  }

  lemma FlatAppend<T>(batches: seq<seq<T>>, b: seq<T>)
    ensures Flat(batches + [b]) == Flat(batches) + b
  {
    assert (batches + [b])[..|batches|] == batches;
  }

  // ---- batching keeps the meaning, exactly when ----

  /** Every raw transaction of a named signer carries the last key that signer gave in the batch, or the signer gave
      none. */
  ghost predicate KeysAgree(ms: seq<Msg>) {
    forall i :: 0 <= i < |ms| && ms[i].RawTx? && ms[i].tx.from.Some? && ms[i].tx.from.value in KeysIn(ms) ==>
      ms[i].signerKey == Some(KeysIn(ms)[ms[i].tx.from.value])
  }

  lemma {:induction false} KeyedIsIn(ms: seq<Msg>, i: nat)
    requires i < |ms| && Keyed(ms[i])
    ensures ms[i].tx.from.value in KeysIn(ms)
  {
    var n := |ms| - 1;
    if i < n { KeyedIsIn(ms[..n], i); }
  }

  lemma RestoreIs(ms: seq<Msg>, i: nat)
    requires i < |ms|
    ensures var m, keys := ms[i], WaitingKeys(ms);
      EventOf(Restore(keys, Strip(m))) == EventOf(m) <==>
        (m.RawTx? && m.tx.from.Some? && m.tx.from.value in KeysIn(ms) ==>
          m.signerKey == Some(KeysIn(ms)[m.tx.from.value]))
  {
    if Keyed(ms[i]) { KeyedIsIn(ms, i); }
  }

  /** A batch causes the events its messages would have caused one by one, in order and once each, if and only if its
      keys agree. */
  lemma BatchMeansSinglesIff(ms: seq<Msg>)
    requires ms != []
    ensures Events(Pack(StripAll(ms), WaitingKeys(ms))) == Singly(ms) <==> KeysAgree(ms)
  {
    var es, ss := Events(Pack(StripAll(ms), WaitingKeys(ms))), Singly(ms);
    forall i | 0 <= i < |ms| ensures es[i] == ss[i] <==>
      (ms[i].RawTx? && ms[i].tx.from.Some? && ms[i].tx.from.value in KeysIn(ms) ==>
        ms[i].signerKey == Some(KeysIn(ms)[ms[i].tx.from.value]))
    {
      RestoreIs(ms, i);
      if |ms| == 1 {
        assert ms[..0] == [] && KeysIn(ms[..0]) == map[];
      }
    }
    assert |es| == |ss|;
  }

  /** Over everything sent: what receivers see is what the messages say, in order and once each, exactly when every
      flushed batch's keys agree. */
  lemma {:induction false} SentMeansSinglesIff(batches: seq<seq<Msg>>)
    requires forall i :: 0 <= i < |batches| ==> batches[i] != []
    ensures |AllEvents(PackAll(batches))| == |Singly(Flat(batches))|
    ensures AllEvents(PackAll(batches)) == Singly(Flat(batches)) <==> AllAgree(batches)
  {
    if batches != [] {
      var n := |batches| - 1;
      var front, last := batches[..n], batches[n];
      SentMeansSinglesIff(front);
      BatchMeansSinglesIff(last);
      SendStep(batches);
      AgreeStep(batches);
      hide Pack, Events, Singly, PackAll, AllEvents, KeysAgree, AllAgree, WaitingKeys, StripAll, Flat;
      Split(AllEvents(PackAll(front)), Events(Pack(StripAll(last), WaitingKeys(last))), Singly(Flat(front)),
        Singly(last));
    }
  }

  lemma SendStep(batches: seq<seq<Msg>>)
    requires batches != [] && forall i :: 0 <= i < |batches| ==> batches[i] != []
    ensures var n := |batches| - 1; var front, last := batches[..n], batches[n];
      && AllEvents(PackAll(batches)) == AllEvents(PackAll(front)) + Events(Pack(StripAll(last), WaitingKeys(last)))
      && Singly(Flat(batches)) == Singly(Flat(front)) + Singly(last)
      && |Events(Pack(StripAll(last), WaitingKeys(last)))| == |Singly(last)|
  {
    hide EventOf, Restore, WaitingKeys;
    var n := |batches| - 1;
    var front, last := batches[..n], batches[n];
    assert PackAll(batches)[..n] == PackAll(front);
    assert PackAll(batches)[n] == Pack(StripAll(last), WaitingKeys(last));
    assert Flat(batches) == Flat(front) + last;
  }

  ghost predicate AllAgree(batches: seq<seq<Msg>>) { forall i :: 0 <= i < |batches| ==> KeysAgree(batches[i]) }

  lemma AgreeStep(batches: seq<seq<Msg>>)
    requires batches != []
    ensures AllAgree(batches) <==> AllAgree(batches[..|batches| - 1]) && KeysAgree(batches[|batches| - 1])
  {
    hide KeysAgree;
    var n := |batches| - 1;
    var front := batches[..n];
    assert forall i :: 0 <= i < n ==> front[i] == batches[i];
    if AllAgree(batches) {
      forall i | 0 <= i < n ensures KeysAgree(front[i]) { assert KeysAgree(batches[i]); }
    }
    if AllAgree(front) && KeysAgree(batches[n]) {
      forall i | 0 <= i < |batches| ensures KeysAgree(batches[i]) { if i < n { assert KeysAgree(front[i]); } }
    }
  }

  lemma Split<T>(a: seq<T>, b: seq<T>, c: seq<T>, d: seq<T>)
    requires |a| == |c|
    ensures a + b == c + d <==> a == c && b == d
  {
    if a + b == c + d {
      assert a == (a + b)[..|a|] && c == (c + d)[..|c|];
      assert b == (a + b)[|a|..] && d == (c + d)[|c|..];
    }
  }

  /** Signers that always use one key are never misread, however the messages fall into batches. */
  ghost predicate OneKeyEach(ms: seq<Msg>, keyOf: Address -> Option<Key>) {
    forall m | m in ms && m.RawTx? && m.tx.from.Some? :: m.signerKey == keyOf(m.tx.from.value)
  }

  lemma {:induction false} KeysInAre(ms: seq<Msg>, keyOf: Address -> Option<Key>)
    requires OneKeyEach(ms, keyOf)
    ensures forall a :: a in KeysIn(ms) ==> keyOf(a) == Some(KeysIn(ms)[a])
  {
    if ms != [] {
      var n := |ms| - 1;
      assert forall m | m in ms[..n] :: m in ms;
      KeysInAre(ms[..n], keyOf);
      assert ms[n] in ms;
    }
  }

  lemma OneKeyEachAgrees(ms: seq<Msg>, keyOf: Address -> Option<Key>)
    requires OneKeyEach(ms, keyOf)
    ensures KeysAgree(ms)
  {
    KeysInAre(ms, keyOf);
    forall i | 0 <= i < |ms| && ms[i].RawTx? && ms[i].tx.from.Some? && ms[i].tx.from.value in KeysIn(ms)
      ensures ms[i].signerKey == Some(KeysIn(ms)[ms[i].tx.from.value])
    {
      assert ms[i] in ms;
    }
  }

  lemma {:induction false} InFlat<T>(batches: seq<seq<T>>, i: nat, x: T)
    requires i < |batches| && x in batches[i]
    ensures x in Flat(batches)
  {
    var n := |batches| - 1;
    if i < n {
      assert batches[..n][i] == batches[i];
      InFlat(batches[..n], i, x);
    }
  }

  /** So when each signer keeps to one key, receivers see every message as if it had travelled alone, in order and
      exactly once, wherever the flushes fell. */
  lemma OneKeyEachIsEnough(batches: seq<seq<Msg>>, keyOf: Address -> Option<Key>)
    requires (forall i :: 0 <= i < |batches| ==> batches[i] != []) && OneKeyEach(Flat(batches), keyOf)
    ensures AllEvents(PackAll(batches)) == Singly(Flat(batches))
  {
    forall i | 0 <= i < |batches| ensures KeysAgree(batches[i]) {
      forall m | m in batches[i] ensures m in Flat(batches) { InFlat(batches, i, m); }
      OneKeyEachAgrees(batches[i], keyOf);
    }
    SentMeansSinglesIff(batches);
  }

  // ---- the charge covers what is sent ----

  /** The bytes of a batch's items and of the keys beside them. */
  function ItemBytes(z: Sizes, items: seq<Msg>): nat {
    if items == [] then 0 else ItemBytes(z, items[..|items| - 1]) + z.item(items[|items| - 1])
  }

  ghost function KeyBytes(z: Sizes, keys: map<Address, Key>): nat
    decreases |keys|
  {
    if keys == map[] then 0
    else
      var a :| a in keys;
      z.KeyCost(a, keys[a]) + KeyBytes(z, keys - {a})
  }

  lemma {:induction false} KeyBytesPick(z: Sizes, keys: map<Address, Key>, a: Address)
    requires a in keys
    ensures KeyBytes(z, keys) == z.KeyCost(a, keys[a]) + KeyBytes(z, keys - {a})
    decreases |keys|
  {
    var b :| b in keys && KeyBytes(z, keys) == z.KeyCost(b, keys[b]) + KeyBytes(z, keys - {b});
    if a != b {
      KeyBytesPick(z, keys - {b}, a);
      KeyBytesPick(z, keys - {a}, b);
      assert keys - {a} - {b} == keys - {b} - {a};
    }
  }

  /** The charge is never less than the bytes of the items and keys a batch carries, so a batch of several that was let
      through stays within the cap. */
  lemma {:induction false} ChargeCovers(z: Sizes, ms: seq<Msg>)
    ensures ItemBytes(z, StripAll(ms)) + KeyBytes(z, KeysIn(ms)) <= Charged(z, ms)
  {
    if ms != [] {
      var n := |ms| - 1;
      var m, keys := ms[n], KeysIn(ms[..n]);
      ChargeCovers(z, ms[..n]);
      assert StripAll(ms)[..n] == StripAll(ms[..n]);
      if Keyed(m) {
        var a, k := m.tx.from.value, m.signerKey.value;
        var next := keys[a := k];
        KeyBytesPick(z, next, a);
        if a in keys {
          KeyBytesPick(z, keys, a);
          assert next - {a} == keys - {a};
          if keys[a] == k { assert next == keys; }
        } else {
          assert next - {a} == keys;
        }
      }
    }
  }
}
