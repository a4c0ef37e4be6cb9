/** The validation-task index: each leader's tasks in assignment order, and the same task objects again by
    transaction. */
module Tasks {
  import opened Ordering
  import opened JsMap

  type Leader = string

  class Task {
    const task: string
    const leaderId: Leader
    var complete: bool

    constructor (task: string, leaderId: Leader, complete: bool)
      ensures this.task == task && this.leaderId == leaderId && this.complete == complete
    {
      this.task, this.leaderId, this.complete := task, leaderId, complete;
    }
  }

  /** What stands before the first colon, or the whole id when there is none. */
  function RawTxIdOf(id: string): (r: string)
    ensures ':' !in r && |r| <= |id| && r == id[..|r|] && (|r| < |id| ==> id[|r|] == ':')
  {
    if id == "" || id[0] == ':' then "" else [id[0]] + RawTxIdOf(id[1..])
  }

  function TaskId(rawTxId: string, leader: Leader): string { rawTxId + ":" + leader + ":validate" }

  lemma {:induction false} BeforeColon(a: string, rest: string)
    requires rest != "" && rest[0] == ':'
    ensures ':' !in a ==> RawTxIdOf(a + rest) == a
  {
    if a != "" && ':' !in a {
      BeforeColon(a[1..], rest);
      assert (a + rest)[1..] == a[1..] + rest;
      assert (a + rest)[0] == a[0] && a[0] in a;
    } else if a == "" {
      assert a + rest == rest;
    }
  }

  /** A task id leads back to its transaction exactly when the transaction's id holds no colon. */
  lemma TaskNamesItsTx(rawTxId: string, leader: Leader)
    ensures RawTxIdOf(TaskId(rawTxId, leader)) == rawTxId <==> ':' !in rawTxId
  {
    var rest := ":" + leader + ":validate";
    assert TaskId(rawTxId, leader) == rawTxId + rest;
    BeforeColon(rawTxId, rest);
  }

  // ---- the two-way index ----

  datatype Index = Index(tasks: TaskMap, byTx: OrderedMap<string, OrderedMap<Leader, seq<Task>>>)

  type TaskMap = OrderedMap<Leader, OrderedMap<string, Task>>

  function MineIn(tasks: TaskMap, l: Leader): OrderedMap<string, Task> { tasks.GetOr(l, Empty()) }

  function Mine(ix: Index, l: Leader): OrderedMap<string, Task> { MineIn(ix.tasks, l) }

  function ByLeader(ix: Index, tx: string): OrderedMap<Leader, seq<Task>> { ix.byTx.GetOr(tx, Empty()) }

  /** The values of some keys, in order. */
  function Pick<K(==), V>(order: seq<K>, m: map<K, V>): seq<V> {
    if order == [] then []
    else
      var n := |order| - 1;
      Pick(order[..n], m) + if order[n] in m then [m[order[n]]] else []
  }

  function Values<K(==), V>(m: OrderedMap<K, V>): seq<V> { Pick(m.order, m.m) }

  /** A leader's tasks, in assignment order. */
  function TasksFor(ix: Index, l: Leader): seq<Task> { Values(Mine(ix, l)) }

  /** A leader's tasks for one transaction, through the transaction's side of the index. */
  function TasksOf(ix: Index, l: Leader, tx: string): seq<Task> { ByLeader(ix, tx).GetOr(l, []) }

  function OfTx(tx: string): Task -> bool { (t: Task) => RawTxIdOf(t.task) == tx }

  function NotOfTx(tx: string): Task -> bool { (t: Task) => RawTxIdOf(t.task) != tx }

  /** A leader's own map: not empty, each task under its own id. */
  ghost predicate LeaderSound(mine: OrderedMap<string, Task>) {
    mine.Valid() && mine.order != [] && forall id :: id in mine.m ==> mine.m[id].task == id
  }

  ghost predicate AllSound(tasks: TaskMap) { tasks.Valid() && forall l :: l in tasks.m ==> LeaderSound(tasks.m[l]) }

  ghost predicate LeadersSound(ix: Index) { AllSound(ix.tasks) }

  ghost predicate TxSound(byLeader: OrderedMap<Leader, seq<Task>>) {
    byLeader.Valid() && byLeader.order != [] && forall l :: l in byLeader.m ==> byLeader.m[l] != []
  }

  ghost predicate TxsSound(ix: Index) { ix.byTx.Valid() && forall tx :: tx in ix.byTx.m ==> TxSound(ix.byTx.m[tx]) }

  /** The transaction side holds the leader side's own task objects, filtered and in order. */
  ghost predicate Agree(ix: Index) { forall l, tx :: TasksOf(ix, l, tx) == Keep(TasksFor(ix, l), OfTx(tx)) }

  ghost predicate Consistent(ix: Index) { LeadersSound(ix) && TxsSound(ix) && Agree(ix) }

  // ---- taking a task in ----

  /** Take a task in, unless the leader has one of that id. */
  function TakeIn(ix: Index, l: Leader, t: Task): (Index, bool) {
    var mine := Mine(ix, l);
    if t.task in mine.m then (ix, false)
    else
      var tx := RawTxIdOf(t.task);
      var byLeader := ByLeader(ix, tx);
      (Index(ix.tasks.Set(l, mine.Set(t.task, t)), ix.byTx.Set(tx, byLeader.Set(l, byLeader.GetOr(l, []) + [t]))), true)
  }

  lemma {:induction false} PickOther<K, V>(order: seq<K>, m: map<K, V>, k: K, v: V)
    requires k !in order
    ensures Pick(order, m[k := v]) == Pick(order, m)
  {
    if order != [] { PickOther(order[..|order| - 1], m, k, v); }
  }

  lemma ValuesOfSet<V>(m: OrderedMap<string, V>, k: string, v: V)
    requires m.Valid() && k !in m.m
    ensures Values(m.Set(k, v)) == Values(m) + [v]
  {
    assert k !in m.order by { assert k !in Elements(m.order); }
    PickOther(m.order, m.m, k, v);
    assert (m.order + [k])[..|m.order|] == m.order;
  }

  lemma TakenMine(ix: Index, l: Leader, t: Task, k: Leader)
    ensures var mine := Mine(ix, l);
      Mine(TakeIn(ix, l, t).0, k) == if k == l && t.task !in mine.m then mine.Set(t.task, t) else Mine(ix, k)
  {
  }

  lemma InsertLists(ix: Index, l: Leader, t: Task, k: Leader)
    requires LeadersSound(ix)
    ensures var (next, added) := TakeIn(ix, l, t);
      (added <==> t.task !in Mine(ix, l).m) &&
        TasksFor(next, k) == TasksFor(ix, k) + (if k == l && added then [t] else [])
  {
    var mine := Mine(ix, l);
    TakenMine(ix, l, t, k);
    hide Values, RawTxIdOf;
    if t.task !in mine.m {
      assert mine.Valid();
      ValuesOfSet(mine, t.task, t);
    }
  }

  lemma InsertSound(ix: Index, l: Leader, t: Task)
    requires LeadersSound(ix) && TxsSound(ix)
    ensures LeadersSound(TakeIn(ix, l, t).0) && TxsSound(TakeIn(ix, l, t).0)
  {
    var mine, tx := Mine(ix, l), RawTxIdOf(t.task);
    if t.task !in mine.m {
      assert LeaderSound(mine.Set(t.task, t)) by { assert mine.Valid(); }
      var byLeader := ByLeader(ix, tx);
      assert TxSound(byLeader.Set(l, byLeader.GetOr(l, []) + [t])) by { assert byLeader.Valid(); }
    }
  }

  lemma InsertOf(ix: Index, l: Leader, t: Task, k: Leader, x: string)
    ensures var (next, added) := TakeIn(ix, l, t);
      TasksOf(next, k, x) == TasksOf(ix, k, x) + (if added && k == l && x == RawTxIdOf(t.task) then [t] else [])
  {
    hide RawTxIdOf, OrderedMap.Valid;
    var tx := RawTxIdOf(t.task);
    if t.task !in Mine(ix, l).m {
      var byLeader := ByLeader(ix, tx);
      assert ByLeader(TakeIn(ix, l, t).0, x) == if x == tx then byLeader.Set(l, byLeader.GetOr(l, []) + [t])
        else ByLeader(ix, x);
    }
  }

  lemma InsertAgrees(ix: Index, l: Leader, t: Task, k: Leader, x: string)
    requires LeadersSound(ix) && Agree(ix)
    ensures TasksOf(TakeIn(ix, l, t).0, k, x) == Keep(TasksFor(TakeIn(ix, l, t).0, k), OfTx(x))
  {
    InsertLists(ix, l, t, k);
    InsertOf(ix, l, t, k, x);
    assert TasksOf(ix, k, x) == Keep(TasksFor(ix, k), OfTx(x));
    hide TakeIn, TasksFor, TasksOf, RawTxIdOf;
    var added := TakeIn(ix, l, t).1;
    if k == l && added {
      KeepOneMore(TasksFor(ix, k), t, OfTx(x));
    } else {
      assert TasksFor(ix, k) + [] == TasksFor(ix, k) && TasksOf(ix, k, x) + [] == TasksOf(ix, k, x);
    }
  }

  lemma KeepOneMore(s: seq<Task>, t: Task, p: Task -> bool)
    ensures Keep(s + [t], p) == Keep(s, p) + (if p(t) then [t] else [])
  {
    var one := [t];
    KeepAppend(s, one, p);
    KeepStep(one, p);
    assert one[1..] == [];
  }

  lemma InsertKeeps(ix: Index, l: Leader, t: Task)
    requires Consistent(ix)
    ensures Consistent(TakeIn(ix, l, t).0)
  {
    hide TakeIn, TasksFor, TasksOf, LeadersSound, TxsSound;
    InsertSound(ix, l, t);
    forall k, x ensures TasksOf(TakeIn(ix, l, t).0, k, x) == Keep(TasksFor(TakeIn(ix, l, t).0, k), OfTx(x)) {
      InsertAgrees(ix, l, t, k, x);
    }
  }

  // ---- clearing a transaction ----

  function DeleteAll(mine: OrderedMap<string, Task>, list: seq<Task>): OrderedMap<string, Task> {
    if list == [] then mine else DeleteAll(mine, list[..|list| - 1]).Delete(list[|list| - 1].task)
  }

  /** One leader's tasks of the cleared list are dropped, and the leader with them when none is left. */
  function ClearLeader(tasks: TaskMap, l: Leader, list: seq<Task>): TaskMap {
    if l !in tasks.m then tasks
    else
      var mine := DeleteAll(tasks.m[l], list);
      if mine.order == [] then tasks.Delete(l) else tasks.Set(l, mine)
  }

  function ClearLeaders(tasks: TaskMap, byLeader: OrderedMap<Leader, seq<Task>>, n: nat): TaskMap
    requires n <= |byLeader.order|
  {
    if n == 0 then tasks
    else
      var l := byLeader.order[n - 1];
      ClearLeader(ClearLeaders(tasks, byLeader, n - 1), l, byLeader.GetOr(l, []))
  }

  function Clear(ix: Index, tx: string): Index {
    if tx !in ix.byTx.m then ix
    else
      var byLeader := ix.byTx.m[tx];
      Index(ClearLeaders(ix.tasks, byLeader, |byLeader.order|), ix.byTx.Delete(tx))
  }

  function OtherId(id: string): Task -> bool { (t: Task) => t.task != id }

  ghost function Outside(list: seq<Task>): Task -> bool {
    (t: Task) => forall i :: 0 <= i < |list| ==> list[i].task != t.task
  }

  lemma {:induction false} PickDeleted(order: seq<string>, m: map<string, Task>, id: string)
    requires forall k | k in m :: m[k].task == k
    ensures Pick(Keep(order, Except(id)), m - {id}) == Keep(Pick(order, m), OtherId(id))
  {
    if order == [] {
      assert Keep(order, Except(id)) == [];
      assert Keep(Pick(order, m), OtherId(id)) == [];
    } else {
      var n := |order| - 1;
      var front, last := order[..n], [order[n]];
      PickDeleted(front, m, id);
      assert order == front + last;
      KeepAppend(front, last, Except(id));
      KeepStep(last, Except(id));
      assert last[1..] == [];
      var one := if order[n] in m then [m[order[n]]] else [];
      KeepAppend(Pick(front, m), one, OtherId(id));
      if one != [] {
        KeepStep(one, OtherId(id));
        assert one[1..] == [];
      }
      var k := Keep(front, Except(id));
      if order[n] != id {
        assert Keep(order, Except(id)) == k + last;
        assert (k + last)[..|k|] == k;
      } else {
        assert Keep(order, Except(id)) == k;
      }
    }
  }

  /** Each task under its own id. */
  ghost predicate OwnIds(mine: OrderedMap<string, Task>) {
    mine.Valid() && forall id :: id in mine.m ==> mine.m[id].task == id
  }

  lemma OutsideStep(list: seq<Task>, t: Task)
    requires list != []
    ensures var n := |list| - 1; Outside(list)(t) <==> Outside(list[..n])(t) && OtherId(list[n].task)(t)
  {
    var n := |list| - 1;
    if Outside(list)(t) {
      assert list[n].task != t.task;
      forall i | 0 <= i < n ensures list[..n][i].task != t.task { assert list[..n][i] == list[i]; }
    }
    if Outside(list[..n])(t) && OtherId(list[n].task)(t) {
      forall i | 0 <= i < |list| ensures list[i].task != t.task { if i < n { assert list[..n][i].task != t.task; } }
    }
  }

  lemma DeleteValues(mine: OrderedMap<string, Task>, id: string)
    requires OwnIds(mine)
    ensures OwnIds(mine.Delete(id)) && Values(mine.Delete(id)) == Keep(Values(mine), OtherId(id))
  {
    PickDeleted(mine.order, mine.m, id);
  }

  lemma OutsideTwice(s: seq<Task>, list: seq<Task>)
    requires list != []
    ensures Keep(Keep(s, Outside(list[..|list| - 1])), OtherId(list[|list| - 1].task)) == Keep(s, Outside(list))
  {
    hide Outside, OtherId;
    var n := |list| - 1;
    var front, x := list[..n], list[n];
    forall t ensures Outside(list)(t) <==> Outside(front)(t) && OtherId(x.task)(t) { OutsideStep(list, t); }
    KeepElements(s, Outside(front));
    KeepSame(Keep(s, Outside(front)), OtherId(x.task), Outside(list));
    KeepKeep(s, Outside(list), Outside(front));
  }

  lemma {:induction false} DeleteAllValues(mine: OrderedMap<string, Task>, list: seq<Task>)
    requires OwnIds(mine)
    ensures OwnIds(DeleteAll(mine, list))
    ensures Values(DeleteAll(mine, list)) == Keep(Values(mine), Outside(list))
  {
    if list == [] {
      KeepAll(Values(mine), Outside(list));
    } else {
      var n := |list| - 1;
      DeleteAllValues(mine, list[..n]);
      var less := DeleteAll(mine, list[..n]);
      assert DeleteAll(mine, list) == less.Delete(list[n].task);
      hide Values, Keep, Outside, OtherId, DeleteAll, OwnIds, OrderedMap.Delete;
      DeleteValues(less, list[n].task);
      OutsideTwice(Values(mine), list);
    }
  }

  /** Dropping a transaction's list from a leader leaves the leader's other tasks, in order. */
  lemma ClearedValues(mine: OrderedMap<string, Task>, list: seq<Task>, tx: string)
    requires OwnIds(mine) && list == Keep(Values(mine), OfTx(tx))
    ensures OwnIds(DeleteAll(mine, list))
    ensures Values(DeleteAll(mine, list)) == Keep(Values(mine), NotOfTx(tx))
  {
    DeleteAllValues(mine, list);
    hide Values, DeleteAll, RawTxIdOf;
    KeepElements(Values(mine), OfTx(tx));
    forall t | t in Values(mine) ensures Outside(list)(t) <==> NotOfTx(tx)(t) {
      if OfTx(tx)(t) {
        assert t in list;
        var i :| 0 <= i < |list| && list[i] == t;
      } else {
        forall i | 0 <= i < |list| ensures list[i].task != t.task { assert list[i] in list; }
      }
    }
    KeepSame(Values(mine), Outside(list), NotOfTx(tx));
  }

  function ValuesIn(tasks: TaskMap, l: Leader): seq<Task> { Values(MineIn(tasks, l)) }

  lemma EmptyOrder(mine: OrderedMap<string, Task>)
    requires mine.Valid()
    ensures mine.order == [] ==> Values(mine) == []
    ensures mine.order == [] <==> mine.m == map[]
  {
    if mine.order == [] {
      assert mine.m.Keys == {};
    } else {
      assert mine.order[0] in Elements(mine.order);
    }
  }

  lemma ClearLeaderValues(tasks: TaskMap, l: Leader, list: seq<Task>, tx: string, k: Leader)
    requires AllSound(tasks) && list == Keep(ValuesIn(tasks, l), OfTx(tx))
    ensures var next := ClearLeader(tasks, l, list);
      AllSound(next) &&
        ValuesIn(next, k) == if k == l then Keep(ValuesIn(tasks, l), NotOfTx(tx)) else ValuesIn(tasks, k)
  {
    if l in tasks.m {
      var mine := tasks.m[l];
      assert LeaderSound(mine);
      ClearedValues(mine, list, tx);
      var left := DeleteAll(mine, list);
      EmptyOrder(left);
      hide Values, Keep, DeleteAll;
      assert left.order != [] ==> LeaderSound(left);
      var next := ClearLeader(tasks, l, list);
      assert MineIn(next, k) == if k != l then MineIn(tasks, k) else if left.order == [] then Empty() else left;
      EmptyOrder(Empty());
    } else {
      EmptyOrder(Empty());
      assert ValuesIn(tasks, l) == [];
      assert Keep(ValuesIn(tasks, l), NotOfTx(tx)) == [];
    }
  }

  ghost predicate ListsOf(tasks: TaskMap, byLeader: OrderedMap<Leader, seq<Task>>, tx: string) {
    forall l :: byLeader.GetOr(l, []) == Keep(ValuesIn(tasks, l), OfTx(tx))
  }

  /** Leader k's tasks once the first n leaders are cleared. */
  ghost function AfterClear(tasks: TaskMap, byLeader: OrderedMap<Leader, seq<Task>>, n: nat, tx: string,
        k: Leader): seq<Task>
    requires n <= |byLeader.order|
  {
    if k in byLeader.order[..n] then Keep(ValuesIn(tasks, k), NotOfTx(tx)) else ValuesIn(tasks, k)
  }

  lemma AfterClearStep(tasks: TaskMap, byLeader: OrderedMap<Leader, seq<Task>>, n: nat, tx: string, k: Leader)
    requires byLeader.Valid() && 0 < n <= |byLeader.order|
    ensures var l := byLeader.order[n - 1];
      && AfterClear(tasks, byLeader, n - 1, tx, l) == ValuesIn(tasks, l)
      && AfterClear(tasks, byLeader, n, tx, k) == if k == l then Keep(ValuesIn(tasks, l), NotOfTx(tx))
        else AfterClear(tasks, byLeader, n - 1, tx, k)
  {
    hide ValuesIn, Keep, NotOfTx;
    var l := byLeader.order[n - 1];
    assert l !in byLeader.order[..n - 1];
    assert byLeader.order[..n] == byLeader.order[..n - 1] + [l];
  }

  lemma ListAt(tasks: TaskMap, byLeader: OrderedMap<Leader, seq<Task>>, tx: string, l: Leader)
    requires ListsOf(tasks, byLeader, tx)
    ensures byLeader.GetOr(l, []) == Keep(ValuesIn(tasks, l), OfTx(tx))
  {
  }

  lemma {:induction false} ClearLeadersValues(tasks: TaskMap, byLeader: OrderedMap<Leader, seq<Task>>, n: nat,
        tx: string, k: Leader)
    requires AllSound(tasks) && byLeader.Valid() && n <= |byLeader.order| && ListsOf(tasks, byLeader, tx)
    ensures AllSound(ClearLeaders(tasks, byLeader, n))
    ensures ValuesIn(ClearLeaders(tasks, byLeader, n), k) == AfterClear(tasks, byLeader, n, tx, k)
  {
    if n > 0 {
      hide ClearLeader, ValuesIn, Keep, AllSound, ListsOf, OfTx, NotOfTx, OrderedMap.GetOr;
      var l := byLeader.order[n - 1];
      ClearLeadersValues(tasks, byLeader, n - 1, tx, k);
      ClearLeadersValues(tasks, byLeader, n - 1, tx, l);
      AfterClearStep(tasks, byLeader, n, tx, k);
      ListAt(tasks, byLeader, tx, l);
      var list := byLeader.GetOr(l, []);
      var mid := ClearLeaders(tasks, byLeader, n - 1);
      assert ClearLeaders(tasks, byLeader, n) == ClearLeader(mid, l, list);
      hide ClearLeaders, AfterClear, OrderedMap.Valid;
      ClearLeaderValues(mid, l, list, tx, k);
    }
  }

  /** Clearing a transaction leaves every leader its other tasks, in order, and drops leaders with none. */
  lemma ClearLists(ix: Index, tx: string, k: Leader)
    requires Consistent(ix)
    ensures AllSound(Clear(ix, tx).tasks)
    ensures TasksFor(Clear(ix, tx), k) == Keep(TasksFor(ix, k), NotOfTx(tx))
  {
    forall l ensures ByLeader(ix, tx).GetOr(l, []) == Keep(ValuesIn(ix.tasks, l), OfTx(tx)) {
      assert TasksOf(ix, l, tx) == Keep(TasksFor(ix, l), OfTx(tx));
    }
    if tx in ix.byTx.m {
      var byLeader := ix.byTx.m[tx];
      assert TxSound(byLeader);
      assert ListsOf(ix.tasks, byLeader, tx);
      ClearLeadersValues(ix.tasks, byLeader, |byLeader.order|, tx, k);
      assert byLeader.order[..|byLeader.order|] == byLeader.order;
      if k !in byLeader.order {
        assert k !in byLeader.m by { assert k !in Elements(byLeader.order); }
        NoneOfTx(TasksFor(ix, k), tx);
      }
    } else {
      NoneOfTx(TasksFor(ix, k), tx);
    }
  }

  lemma NoneOfTx(s: seq<Task>, tx: string)
    requires Keep(s, OfTx(tx)) == []
    ensures Keep(s, NotOfTx(tx)) == s
  {
    KeepElements(s, OfTx(tx));
    forall t | t in s ensures NotOfTx(tx)(t) { assert OfTx(tx)(t) ==> t in Keep(s, OfTx(tx)); }
    KeepAll(s, NotOfTx(tx));
  }

  lemma ClearKeeps(ix: Index, tx: string)
    requires Consistent(ix)
    ensures Consistent(Clear(ix, tx))
  {
    var next := Clear(ix, tx);
    ClearLists(ix, tx, "");
    assert TxsSound(next);
    hide TxsSound, LeadersSound;
    forall k, x ensures TasksOf(next, k, x) == Keep(TasksFor(next, k), OfTx(x)) {
      ClearLists(ix, tx, k);
      assert TasksOf(ix, k, x) == Keep(TasksFor(ix, k), OfTx(x));
      ClearOf(ix, tx, k, x);
      hide TasksFor, TasksOf, Clear, RawTxIdOf;
      if x == tx {
        KeepElements(TasksFor(ix, k), NotOfTx(tx));
        KeepNone(TasksFor(next, k), OfTx(x));
      } else {
        KeepKeep(TasksFor(ix, k), OfTx(x), NotOfTx(tx));
      }
    }
  }

  lemma ClearOf(ix: Index, tx: string, k: Leader, x: string)
    ensures TasksOf(Clear(ix, tx), k, x) == if x == tx then [] else TasksOf(ix, k, x)
  {
  }

  // ---- the manager ----

  class ValidationTaskManager {
    var index: Index

    constructor ()
      ensures index == Index(Empty(), Empty()) && Consistent(index)
    {
      index := Index(Empty(), Empty());
      new;
      EmptyIsConsistent();
    }

    method AddToIndex(l: Leader, t: Task) returns (added: bool)
      requires Consistent(index)
      modifies this
      ensures Consistent(index) && (index, added) == TakeIn(old(index), l, t)
      ensures added <==> t.task !in Mine(old(index), l).m
      ensures forall k :: TasksFor(index, k) == TasksFor(old(index), k) + (if k == l && added then [t] else [])
    {
      ghost var was := index;
      InsertKeeps(index, l, t);
      forall k
        ensures TasksFor(TakeIn(was, l, t).0, k) == TasksFor(was, k) +
        (if k == l && TakeIn(was, l, t).1 then [t] else [])
      {
        InsertLists(was, l, t, k);
      }
      var mine := index.tasks.GetOr(l, Empty());
      if t.task in mine.m { return false; }
      var tx := RawTxIdOf(t.task);
      var byLeader := index.byTx.GetOr(tx, Empty());
      index := Index(index.tasks.Set(l, mine.Set(t.task, t)),
        index.byTx.Set(tx, byLeader.Set(l, byLeader.GetOr(l, []) + [t])));
      return true;
    }

    /** Assigning changes no task object: one that is complete stays complete, one the leader has is kept as it is. */
    method AssignTasks(ts: seq<Task>)
      requires Consistent(index)
      modifies this
      ensures Consistent(index) && index == InsertAll(old(index), ts)
      ensures forall k :: Gains(old(index), index, k, Own(ts))
    {
      OwnPairs(index, ts);
      forall k ensures Gains(index, InsertPairs(index, Own(ts)), k, Own(ts)) { PairsTaken(index, Own(ts), k); }
      hide Gains, Own, InsertPairs, TakeIn, Consistent;
      var i := 0;
      while i < |ts|
        invariant 0 <= i <= |ts|
        invariant Consistent(index) && index == InsertAll(old(index), ts[..i])
      {
        assert ts[..i + 1][..i] == ts[..i];
        var _ := AddToIndex(ts[i].leaderId, ts[i]);
        i := i + 1;
      }
      assert ts[..i] == ts;
    }

    /** The store's tasks after a restart, leader by leader, but for the transactions no longer wanted. */
    method Hydrate(all: seq<(Leader, Task)>, keep: Option<string -> bool>) returns (n: nat)
      requires Consistent(index)
      modifies this
      ensures Consistent(index) && index == InsertPairs(old(index), Keep(all, Wanted(keep)))
      ensures forall k :: Gains(old(index), index, k, Keep(all, Wanted(keep)))
      ensures forall x :: x in Keep(all, Wanted(keep)) <==>
        x in all && (keep.None? || keep.value(RawTxIdOf(x.1.task)))
    {
      KeepElements(all, Wanted(keep));
      assert forall x :: Wanted(keep)(x) <==> keep.None? || keep.value(RawTxIdOf(x.1.task));
      ghost var wanted := Keep(all, Wanted(keep));
      forall k ensures Gains(index, InsertPairs(index, wanted), k, wanted) { PairsTaken(index, wanted, k); }
      hide Gains;
      hide Consistent, TasksFor, TakeIn, Keep, Wanted;
      n := 0;
      var i := 0;
      KeepNone([], Wanted(keep));
      while i < |all|
        invariant 0 <= i <= |all|
        invariant Consistent(index) && index == InsertPairs(old(index), Keep(all[..i], Wanted(keep)))
      {
        WantedStep(old(index), all, i, keep);
        if Wanted(keep)(all[i]) {
          var added := AddToIndex(all[i].0, all[i].1);
          if added { n := n + 1; }
        }
        i := i + 1;
      }
      assert all[..i] == all;
    }

    /** Completing goes through one object, so both sides of the index see it. */
    method CompleteTask(l: Leader, id: string)
      requires Consistent(index)
      modifies if id in Mine(index, l).m then {Mine(index, l).m[id]} else {}
      ensures index == old(index)
      ensures id in Mine(index, l).m ==> Mine(index, l).m[id].complete
    {
      var mine := index.tasks.GetOr(l, Empty());
      if id in mine.m && !mine.m[id].complete { mine.m[id].complete := true; }
    }

    method GetTasksOf(l: Leader, tx: string) returns (r: seq<Task>)
      requires Consistent(index)
      ensures r == Keep(TasksFor(index, l), OfTx(tx))
    {
      assert TasksOf(index, l, tx) == Keep(TasksFor(index, l), OfTx(tx));
      r := index.byTx.GetOr(tx, Empty()).GetOr(l, []);
    }

    method ClearTasksForRawTx(tx: string)
      requires Consistent(index)
      modifies this
      ensures Consistent(index) && index == Clear(old(index), tx)
      ensures forall k :: TasksFor(index, k) == Keep(TasksFor(old(index), k), NotOfTx(tx))
    {
      ghost var was := index;
      ClearKeeps(index, tx);
      forall k ensures TasksFor(Clear(was, tx), k) == Keep(TasksFor(was, k), NotOfTx(tx)) { ClearLists(was, tx, k); }
      hide Consistent, TasksFor, Keep, ClearLeaders;
      if tx !in index.byTx.m { return; }
      var byLeader := index.byTx.m[tx];
      var tasks := DropLeaders(index.tasks, byLeader);
      index := Index(tasks, index.byTx.Delete(tx));
    }

    static method DropLeaders(before: TaskMap, byLeader: OrderedMap<Leader, seq<Task>>) returns (tasks: TaskMap)
      ensures tasks == ClearLeaders(before, byLeader, |byLeader.order|)
    {
      tasks := before;
      var i := 0;
      while i < |byLeader.order|
        invariant 0 <= i <= |byLeader.order|
        invariant tasks == ClearLeaders(before, byLeader, i)
      {
        var l := byLeader.order[i];
        if l in tasks.m {
          var mine := DropTasks(tasks.m[l], byLeader.GetOr(l, []));
          tasks := if mine.order == [] then tasks.Delete(l) else tasks.Set(l, mine);
        }
        i := i + 1;
      }
    }

    static method DropTasks(mine: OrderedMap<string, Task>, list: seq<Task>) returns (left: OrderedMap<string, Task>)
      ensures left == DeleteAll(mine, list)
    {
      left := mine;
      var i := 0;
      while i < |list|
        invariant 0 <= i <= |list|
        invariant left == DeleteAll(mine, list[..i])
      {
        assert list[..i + 1][..i] == list[..i];
        left := left.Delete(list[i].task);
        i := i + 1;
      }
      assert list[..i] == list;
    }
  }

  /** What one leader gains, whatever the others get: of the tasks handed to it, in order, the first of each id that it
      does not have. */
  function NewFor(known: set<string>, l: Leader, pairs: seq<(Leader, Task)>): seq<Task> {
    if pairs == [] then []
    else
      var (k, t) := pairs[|pairs| - 1];
      var before := NewFor(known, l, pairs[..|pairs| - 1]);
      if k == l && t.task !in known + IdsOf(before) then before + [t] else before
  }

  ghost predicate Gains(before: Index, after: Index, l: Leader, pairs: seq<(Leader, Task)>) {
    && TasksFor(after, l) == TasksFor(before, l) + NewFor(Mine(before, l).m.Keys, l, pairs)
    && Mine(after, l).m.Keys == Mine(before, l).m.Keys + IdsOf(NewFor(Mine(before, l).m.Keys, l, pairs))
  }

  function IdsOf(ts: seq<Task>): set<string> { set t | t in ts :: t.task }

  /** Each task goes to the leader it names. */
  function Own(ts: seq<Task>): (r: seq<(Leader, Task)>)
    ensures |r| == |ts|
  {
    seq(|ts|, i requires 0 <= i < |ts| => (ts[i].leaderId, ts[i]))
  }

  lemma {:induction false} OwnPairs(ix: Index, ts: seq<Task>)
    ensures InsertAll(ix, ts) == InsertPairs(ix, Own(ts))
  {
    if ts != [] {
      var n := |ts| - 1;
      OwnPairs(ix, ts[..n]);
      assert Own(ts)[..n] == Own(ts[..n]);
    }
  }

  lemma {:induction false} PairsTaken(ix: Index, pairs: seq<(Leader, Task)>, k: Leader)
    requires LeadersSound(ix) && TxsSound(ix)
    ensures LeadersSound(InsertPairs(ix, pairs)) && TxsSound(InsertPairs(ix, pairs))
    ensures Gains(ix, InsertPairs(ix, pairs), k, pairs)
  {
    hide TasksFor, TakeIn, LeadersSound, TxsSound;
    if pairs != [] {
      var n := |pairs| - 1;
      var (l, t) := pairs[n];
      var mid := InsertPairs(ix, pairs[..n]);
      PairsTaken(ix, pairs[..n], k);
      InsertSound(mid, l, t);
      InsertLists(mid, l, t, k);
      TakenMine(mid, l, t, k);
      GainsOneMore(ix, mid, TakeIn(mid, l, t).0, k, pairs);
    }
  }

  /** One more pair of the list: leader k gains its task if it is k's and new to it. */
  lemma GainsOneMore(ix: Index, mid: Index, next: Index, k: Leader, pairs: seq<(Leader, Task)>)
    requires pairs != [] && Gains(ix, mid, k, pairs[..|pairs| - 1])
    requires var (l, t) := pairs[|pairs| - 1]; var more := l == k && t.task !in Mine(mid, k).m;
      && TasksFor(next, k) == TasksFor(mid, k) + (if more then [t] else [])
      && Mine(next, k).m.Keys == Mine(mid, k).m.Keys + if more then {t.task} else {}
    ensures Gains(ix, next, k, pairs)
  {
    hide TasksFor, Mine;
    var (l, t) := pairs[|pairs| - 1];
    var before := NewFor(Mine(ix, k).m.Keys, k, pairs[..|pairs| - 1]);
    assert IdsOf(before + [t]) == IdsOf(before) + {t.task};
  }

  function InsertAll(ix: Index, ts: seq<Task>): Index {
    if ts == [] then ix
    else
      var t := ts[|ts| - 1];
      TakeIn(InsertAll(ix, ts[..|ts| - 1]), t.leaderId, t).0
  }

  function InsertPairs(ix: Index, ts: seq<(Leader, Task)>): Index {
    if ts == [] then ix
    else
      var (l, t) := ts[|ts| - 1];
      TakeIn(InsertPairs(ix, ts[..|ts| - 1]), l, t).0
  }

  function Wanted(keep: Option<string -> bool>): ((Leader, Task)) -> bool {
    (x: (Leader, Task)) => keep.None? || keep.value(RawTxIdOf(x.1.task))
  }

  lemma WantedStep(ix: Index, all: seq<(Leader, Task)>, i: nat, keep: Option<string -> bool>)
    requires i < |all|
    ensures var before, after := InsertPairs(ix, Keep(all[..i], Wanted(keep))),
      InsertPairs(ix, Keep(all[..i + 1], Wanted(keep)));
      after == if Wanted(keep)(all[i]) then TakeIn(before, all[i].0, all[i].1).0 else before
  {
    var one, k := [all[i]], Keep(all[..i], Wanted(keep));
    assert all[..i + 1] == all[..i] + one;
    KeepAppend(all[..i], one, Wanted(keep));
    KeepStep(one, Wanted(keep));
    assert one[1..] == [];
    hide Keep, Wanted, TakeIn;
    if Wanted(keep)(all[i]) {
      assert Keep(all[..i + 1], Wanted(keep)) == k + one;
      assert (k + one)[..|k|] == k;
    } else {
      assert Keep(all[..i + 1], Wanted(keep)) == k + [];
      assert k + [] == k;
    }
  }

  lemma EmptyIsConsistent()
    ensures Consistent(Index(Empty(), Empty()))
  {
    var ix := Index(Empty(), Empty());
    EmptyOrder(Empty());
    forall l, tx ensures TasksOf(ix, l, tx) == Keep(TasksFor(ix, l), OfTx(tx)) {
      assert TasksFor(ix, l) == [];
      assert Keep(TasksFor(ix, l), OfTx(tx)) == [];
    }
  }

  // ---- runs ----

  datatype Op = Assign(ts: seq<Task>) | Restored(all: seq<(Leader, Task)>, keep: Option<string -> bool>) |
    ClearTx(tx: string)

  function Exec(ix: Index, op: Op): Index {
    match op
    case Assign(ts) => InsertAll(ix, ts)
    case Restored(all, keep) => InsertPairs(ix, Keep(all, Wanted(keep)))
    case ClearTx(tx) => Clear(ix, tx)
  }

  function ExecAll(ops: seq<Op>): Index {
    if ops == [] then Index(Empty(), Empty()) else Exec(ExecAll(ops[..|ops| - 1]), ops[|ops| - 1])
  }

  lemma {:induction false} InsertAllKeeps(ix: Index, ts: seq<Task>)
    requires Consistent(ix)
    ensures Consistent(InsertAll(ix, ts))
  {
    if ts != [] {
      InsertAllKeeps(ix, ts[..|ts| - 1]);
      InsertKeeps(InsertAll(ix, ts[..|ts| - 1]), ts[|ts| - 1].leaderId, ts[|ts| - 1]);
    }
  }

  lemma {:induction false} InsertPairsKeeps(ix: Index, ts: seq<(Leader, Task)>)
    requires Consistent(ix)
    ensures Consistent(InsertPairs(ix, ts))
  {
    if ts != [] {
      InsertPairsKeeps(ix, ts[..|ts| - 1]);
      InsertKeeps(InsertPairs(ix, ts[..|ts| - 1]), ts[|ts| - 1].0, ts[|ts| - 1].1);
    }
  }

  /** After any sequence of restores, assignments and clears, the two sides agree for every leader and transaction, on
      the same task objects in the same order, and no empty leader or transaction remains. */
  lemma {:induction false} IndexAlwaysConsistent(ops: seq<Op>)
    ensures Consistent(ExecAll(ops))
  {
    if ops == [] {
      EmptyIsConsistent();
    } else {
      var front, op := ops[..|ops| - 1], ops[|ops| - 1];
      IndexAlwaysConsistent(front);
      match op
      case Assign(ts) => InsertAllKeeps(ExecAll(front), ts);
      case Restored(all, keep) => InsertPairsKeeps(ExecAll(front), Keep(all, Wanted(keep)));
      case ClearTx(tx) => ClearKeeps(ExecAll(front), tx);
    }
  }

  /** Assigning a task again, whatever the new object says, leaves the index as it was: a completed task is not
      reset. */
  lemma AssignAgainChangesNothing(ix: Index, l: Leader, first: Task, again: Task)
    requires first.task == again.task
    ensures var once := TakeIn(ix, l, first).0; TakeIn(once, l, again) == (once, false)
  {
  }
}
