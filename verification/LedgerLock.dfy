/** One ledger write at a time, and signed chain readings that no write disturbed. */
module LedgerLock {
  import opened JsMap

  /** What a write asked for: the operation and the set of anchors it keeps. */
  type Key = nat
  type Value = nat
  datatype Op = RebuildLedger | ApplyCanonical | ApplyBackfill | Evict
  datatype Outcome = Returned(ok: bool, value: Value) | Threw

  /** A chain reading: the moments it began and ended, whether it was read and signed, and what it says. */
  datatype Reading = Reading(begin: nat, end: nat, ok: bool, signed: bool, value: Value)

  // ---- the node's own variables ----

  datatype Writing = Writing(id: nat, key: Key, op: Op)
  datatype Applied = Applied(key: Key, held: nat, root: nat, result: Value, id: nat)
  datatype Lock = Lock(writing: Option<Writing>, lastApplied: Option<Applied>, writes: nat, settled: Option<Reading>)

  datatype Admission = Joined(id: nat) | Busy(running: Op) | Unchanged(result: Value) | Started(id: nat)
  datatype ReadStart = Handed(r: Reading) | Undermined | Idle(at: nat)

  /** A write arrives; `held` and `root` are what the ledger holds at that moment. */
  function Admit(k: Lock, key: Key, op: Op, held: nat, root: nat): (Lock, Admission) {
    if k.writing.Some? then
      (k, if k.writing.value.key == key then Joined(k.writing.value.id) else Busy(k.writing.value.op))
    else if k.lastApplied.Some? && k.lastApplied.value.key == key && k.lastApplied.value.held == held &&
      k.lastApplied.value.root == root then
      (k, Unchanged(k.lastApplied.value.result))
    else
      (k.(writing := Some(Writing(k.writes, key, op)), lastApplied := None, writes := k.writes + 1), Started(k.writes))
  }

  /** The reading a write takes as its last step. */
  function Settle(k: Lock, r: Reading): Lock { if r.ok && r.signed then k.(settled := Some(r)) else k }

  /** A write's promise resolves: release the lock if it is ours, and remember a completed rebuild. */
  function Finish(k: Lock, w: Writing, out: Outcome, held: nat, root: nat): Lock {
    var freed := if k.writing.Some? && k.writing.value.id == w.id then k.(writing := None) else k;
    if out.Returned? && out.ok && (w.op.RebuildLedger? || w.op.ApplyCanonical?)
    then freed.(lastApplied := Some(Applied(w.key, held, root, out.value, w.id)))
    else freed
  }

  function BeginRead(k: Lock): ReadStart {
    if k.writing.Some? then (if k.settled.Some? then Handed(k.settled.value) else Undermined) else Idle(k.writes)
  }

  /** An idle reading returns: kept and passed on when no write started meanwhile, else stripped of its signature. */
  function EndRead(k: Lock, at: nat, r: Reading): (Lock, Reading) {
    if k.writes != at then (k, r.(signed := false))
    else (if r.ok && r.signed then k.(settled := Some(r)) else k, r)
  }

  class LedgerLock {
    var writing: Option<Writing>
    var lastApplied: Option<Applied>
    var writes: nat
    var settledChain: Option<Reading>

    ghost function State(): Lock reads this { Lock(writing, lastApplied, writes, settledChain) }

    constructor ()
      ensures State() == Unlocked()
    {
      writing, lastApplied, writes, settledChain := None, None, 0, None;
    }

    method RunLedgerWrite(key: Key, op: Op, held: nat, root: nat) returns (a: Admission)
      modifies this
      ensures (State(), a) == Admit(old(State()), key, op, held, root)
      // A running write is joined by the same call, and refuses any other.
      ensures old(writing).Some? ==> State() == old(State())
      ensures old(writing).Some? ==>
        a == if old(writing).value.key == key then Joined(old(writing).value.id) else Busy(old(writing).value.op)
      // What was applied last is repeated when call, holdings and root are all as they were.
      ensures a.Unchanged? <==>
        && old(writing).None? && old(lastApplied).Some?
        && old(lastApplied).value.key == key && old(lastApplied).value.held == held &&
          old(lastApplied).value.root == root
      ensures a.Unchanged? ==> State() == old(State()) && a.result == old(lastApplied).value.result
      // Otherwise a new write starts, and what was applied last is forgotten.
      ensures a.Started? ==>
        && a.id == old(writes) && writes == old(writes) + 1 && settledChain == old(settledChain)
        && writing == Some(Writing(old(writes), key, op)) && lastApplied == None
    {
      if writing.Some? {
        if writing.value.key == key { return Joined(writing.value.id); }
        return Busy(writing.value.op);
      }
      if lastApplied.Some? && lastApplied.value.key == key && lastApplied.value.held == held &&
        lastApplied.value.root == root
      {
        return Unchanged(lastApplied.value.result);
      }
      lastApplied := None;
      a := Started(writes);
      writing := Some(Writing(writes, key, op));
      writes := writes + 1;
    }

    method SettleWith(r: Reading)
      modifies this
      ensures State() == Settle(old(State()), r)
      ensures State() == old(State()).(settled := if r.ok && r.signed then Some(r) else old(settledChain))
    {
      if r.ok && r.signed { settledChain := Some(r); }
    }

    method PromiseResolved(w: Writing, out: Outcome, held: nat, root: nat)
      modifies this
      ensures State() == Finish(old(State()), w, out, held, root)
      ensures writing == (if old(writing).Some? && old(writing).value.id == w.id then None else old(writing))
      ensures lastApplied ==
        if out.Returned? && out.ok && (w.op == RebuildLedger || w.op == ApplyCanonical)
        then Some(Applied(w.key, held, root, out.value, w.id)) else old(lastApplied)
      ensures writes == old(writes) && settledChain == old(settledChain)
    {
      if writing.Some? && writing.value.id == w.id { writing := None; }
      if out.Returned? && out.ok && (w.op.RebuildLedger? || w.op.ApplyCanonical?) {
        lastApplied := Some(Applied(w.key, held, root, out.value, w.id));
      }
    }

    method StartRead() returns (s: ReadStart)
      ensures s == BeginRead(State())
      ensures writing.None? ==> s == Idle(writes)
      ensures writing.Some? ==> s == if settledChain.Some? then Handed(settledChain.value) else Undermined
    {
      if writing.Some? {
        if settledChain.Some? { return Handed(settledChain.value); }
        return Undermined;
      }
      return Idle(writes);
    }

    method ReadReturned(at: nat, r: Reading) returns (reply: Reading)
      modifies this
      ensures (State(), reply) == EndRead(old(State()), at, r)
      // Undisturbed, it is passed on as it is and kept when good; undercut, it loses its signature and is not kept.
      ensures old(writes) == at ==>
        reply == r && settledChain == if r.ok && r.signed then Some(r) else old(settledChain)
      ensures old(writes) != at ==> reply == r.(signed := false) && settledChain == old(settledChain)
      ensures writing == old(writing) && lastApplied == old(lastApplied) && writes == old(writes)
    {
      if writes != at { return r.(signed := false); }
      if r.ok && r.signed { settledChain := Some(r); }
      return r;
    }
  }

  function Unlocked(): Lock { Lock(None, None, 0, None) }

  // ---- the event loop around it ----

  /** A started write: its body runs, then its closing reading, then its promise resolves. */
  datatype Phase = Body | Settling(begin: nat, out: Outcome) | Resolved(out: Outcome)
  datatype Job = Job(w: Writing, phase: Phase, waiters: set<nat>)

  /** A chain read in flight, begun at a moment: idle, or begun while a write ran. */
  datatype Pending = IdleRead(begin: nat, at: nat) | DuringRead

  datatype World = World(now: nat, lock: Lock, jobs: map<nat, Job>, readers: map<nat, Pending>)

  datatype Reply = Refused(running: Op) | Repeated(result: Value) | Result(id: nat, out: Outcome) | Chain(r: Reading)

  datatype Step =
    | Write(caller: nat, key: Key, op: Op, held: nat, root: nat)
    | BodyEnds(id: nat, out: Outcome)
    | SettleEnds(id: nat, ok: bool, signed: bool, value: Value)
    | Resolves(id: nat, held: nat, root: nat)
    | ReadBegins(read: nat)
    | ReadEnds(read: nat, ok: bool, signed: bool, value: Value)

  ghost predicate Enabled(s: World, e: Step) {
    match e
    case Write(_, _, _, _, _) => true
    case BodyEnds(id, _) => id in s.jobs && s.jobs[id].phase.Body?
    case SettleEnds(id, _, _, _) => id in s.jobs && s.jobs[id].phase.Settling?
    case Resolves(id, _, _) => id in s.jobs && s.jobs[id].phase.Resolved?
    case ReadBegins(r) => r !in s.readers
    case ReadEnds(r, _, _, _) => r in s.readers
  }

  function Exec(s: World, e: Step): World
    requires Enabled(s, e)
  {
    var next := s.(now := s.now + 1);
    match e
    case Write(caller, key, op, held, root) =>
      var (lock, a) := Admit(s.lock, key, op, held, root);
      (match a
       case Joined(id) =>
         if id in s.jobs then next.(jobs := s.jobs[id := s.jobs[id].(waiters := s.jobs[id].waiters + {caller})])
         else next
       case Started(id) => next.(lock := lock, jobs := s.jobs[id := Job(Writing(id, key, op), Body, {caller})])
       case _ => next)
    case BodyEnds(id, out) => next.(jobs := s.jobs[id := s.jobs[id].(phase := Settling(s.now + 1, out))])
    case SettleEnds(id, ok, signed, value) =>
      var r := Reading(s.jobs[id].phase.begin, s.now, ok, signed, value);
      next.(lock := Settle(s.lock, r), jobs := s.jobs[id := s.jobs[id].(phase := Resolved(s.jobs[id].phase.out))])
    case Resolves(id, held, root) =>
      next.(lock := Finish(s.lock, s.jobs[id].w, s.jobs[id].phase.out, held, root), jobs := s.jobs - {id})
    case ReadBegins(r) =>
      (match BeginRead(s.lock)
       case Handed(_) => next
       case Undermined => next.(readers := s.readers[r := DuringRead])
       case Idle(at) => next.(readers := s.readers[r := IdleRead(s.now, at)]))
    case ReadEnds(r, ok, signed, value) =>
      (match s.readers[r]
       case DuringRead => next.(readers := s.readers - {r})
       case IdleRead(begin, at) =>
         next.(lock := EndRead(s.lock, at, Reading(begin, s.now, ok, signed, value)).0, readers := s.readers - {r}))
  }

  /** What a step answers, and to whom: callers of writes and readers are numbered apart. */
  ghost predicate Answers(s: World, e: Step, who: nat, reply: Reply)
    requires Enabled(s, e)
  {
    match e
    case Write(caller, key, op, held, root) =>
      (match Admit(s.lock, key, op, held, root).1
       case Busy(running) => who == caller && reply == Refused(running)
       case Unchanged(result) => who == caller && reply == Repeated(result)
       case _ => false)
    case Resolves(id, _, _) => who in s.jobs[id].waiters && reply == Result(id, s.jobs[id].phase.out)
    case ReadBegins(r) => who == r && BeginRead(s.lock).Handed? && reply == Chain(BeginRead(s.lock).r)
    case ReadEnds(r, ok, signed, value) =>
      who == r &&
      (match s.readers[r]
       case DuringRead => exists begin :: reply == Chain(Reading(begin, s.now, ok, false, value))
       case IdleRead(begin, at) => reply == Chain(EndRead(s.lock, at, Reading(begin, s.now, ok, signed, value)).1))
    case _ => false
  }

  // ---- runs ----

  datatype Run = Run(states: seq<World>, steps: seq<Step>) {
    ghost predicate Valid() {
      && |states| == |steps| + 1
      && states[0] == World(0, Unlocked(), map[], map[])
      && forall t :: 0 <= t < |steps| ==> StepAt(t)
    }

    ghost predicate StepAt(t: nat)
      requires |states| == |steps| + 1 && t < |steps|
    {
      Enabled(states[t], steps[t]) && states[t + 1] == Exec(states[t], steps[t])
    }
  }

  /** A write body is running. */
  ghost predicate BodyRuns(s: World, id: nat) { id in s.jobs && s.jobs[id].phase.Body? }

  ghost predicate Quiet(s: World) { forall id :: !BodyRuns(s, id) }

  ghost predicate QuietFrom(r: Run, a: nat, b: nat)
    requires b < |r.states|
  {
    forall t :: a <= t <= b ==> Quiet(r.states[t])
  }

  // ---- the lock holds ----

  /** The only job there can be is the one the lock names, and it was the last write started. */
  ghost predicate LockInv(s: World) {
    && (forall id :: id in s.jobs ==> s.lock.writing == Some(s.jobs[id].w) && s.jobs[id].w.id == id)
    && (s.lock.writing.Some? ==>
      s.lock.writing.value.id in s.jobs && s.lock.writing.value.id + 1 == s.lock.writes && s.lock.lastApplied.None?)
    && (s.lock.lastApplied.Some? ==> s.lock.lastApplied.value.id + 1 == s.lock.writes)
  }

  lemma LockStep(s: World, e: Step)
    requires LockInv(s) && Enabled(s, e)
    ensures LockInv(Exec(s, e))
  {
  }

  lemma {:induction false} LockHolds(r: Run, t: nat)
    requires r.Valid() && t < |r.states|
    ensures LockInv(r.states[t]) && r.states[t].now == t
  {
    if t > 0 {
      LockHolds(r, t - 1);
      assert r.StepAt(t - 1);
      LockStep(r.states[t - 1], r.steps[t - 1]);
    }
  }

  /** At most one write body runs at a time, over every interleaving. */
  lemma OneBodyAtATime(r: Run, t: nat, a: nat, b: nat)
    requires r.Valid() && t < |r.states| && BodyRuns(r.states[t], a) && BodyRuns(r.states[t], b)
    ensures a == b
  {
    LockHolds(r, t);
  }

  // ---- signed readings are clean ----

  ghost predicate CleanReading(r: Run, x: Reading, t: nat)
    requires t < |r.states|
  {
    x.begin <= x.end <= t && QuietFrom(r, x.begin, x.end)
  }

  /** Idle readings in flight that no write has undercut, closing readings, and the reading kept: no body ran under
      them. */
  ghost predicate ReadersClean(r: Run, t: nat)
    requires t < |r.states|
  {
    var s := r.states[t];
    forall k :: k in s.readers && s.readers[k].IdleRead? ==>
      s.readers[k].begin <= t && s.readers[k].at <= s.lock.writes &&
      (s.readers[k].at == s.lock.writes ==> s.lock.writing.None? && QuietFrom(r, s.readers[k].begin, t))
  }

  ghost predicate SettlingClean(r: Run, t: nat)
    requires t < |r.states|
  {
    var s := r.states[t];
    forall id :: id in s.jobs && s.jobs[id].phase.Settling? ==>
      s.jobs[id].phase.begin <= t && QuietFrom(r, s.jobs[id].phase.begin, t)
  }

  ghost predicate KeptClean(r: Run, t: nat)
    requires t < |r.states|
  {
    var kept := r.states[t].lock.settled;
    kept.Some? ==> kept.value.signed && CleanReading(r, kept.value, t)
  }

  lemma NoJobNoBody(s: World)
    requires LockInv(s) && s.lock.writing.None?
    ensures Quiet(s)
  {
  }

  lemma ReadersStep(r: Run, t: nat)
    requires r.Valid() && t + 1 < |r.states| && ReadersClean(r, t)
    ensures ReadersClean(r, t + 1)
  {
    LockHolds(r, t);
    LockHolds(r, t + 1);
    assert r.StepAt(t);
    var s, s' := r.states[t], r.states[t + 1];
    forall k | k in s'.readers && s'.readers[k].IdleRead?
      ensures s'.readers[k].begin <= t + 1 && s'.readers[k].at <= s'.lock.writes &&
        (s'.readers[k].at == s'.lock.writes ==> s'.lock.writing.None? && QuietFrom(r, s'.readers[k].begin, t + 1))
    {
      if s'.lock.writing.None? { NoJobNoBody(s'); }
      if s.lock.writing.None? { NoJobNoBody(s); }
    }
  }

  lemma SettlingStep(r: Run, t: nat)
    requires r.Valid() && t + 1 < |r.states| && SettlingClean(r, t)
    ensures SettlingClean(r, t + 1)
  {
    LockHolds(r, t);
    LockHolds(r, t + 1);
    assert r.StepAt(t);
    var s, s' := r.states[t], r.states[t + 1];
    forall id | id in s'.jobs && s'.jobs[id].phase.Settling?
      ensures s'.jobs[id].phase.begin <= t + 1 && QuietFrom(r, s'.jobs[id].phase.begin, t + 1)
    {
      assert Quiet(s');
    }
  }

  lemma KeptStep(r: Run, t: nat)
    requires r.Valid() && t + 1 < |r.states| && ReadersClean(r, t) && SettlingClean(r, t) && KeptClean(r, t)
    ensures KeptClean(r, t + 1)
  {
    LockHolds(r, t);
    assert r.StepAt(t);
  }

  lemma {:induction false} AllClean(r: Run, t: nat)
    requires r.Valid() && t < |r.states|
    ensures ReadersClean(r, t) && SettlingClean(r, t) && KeptClean(r, t)
  {
    if t > 0 {
      AllClean(r, t - 1);
      ReadersStep(r, t - 1);
      SettlingStep(r, t - 1);
      KeptStep(r, t - 1);
    }
  }

  /** Every signed chain reply carries a reading during whose whole interval no ledger write body ran. */
  lemma SignedRepliesAreClean(r: Run, t: nat, who: nat, x: Reading)
    requires r.Valid() && t < |r.steps| && Enabled(r.states[t], r.steps[t])
    requires Answers(r.states[t], r.steps[t], who, Chain(x)) && x.signed
    ensures CleanReading(r, x, t)
  {
    AllClean(r, t);
    LockHolds(r, t);
  }

  // ---- and fresh ----

  /** Every write's closing reading succeeded and was signed. */
  ghost predicate SettlesSigned(r: Run) {
    forall t :: 0 <= t < |r.steps| && r.steps[t].SettleEnds? ==> r.steps[t].ok && r.steps[t].signed
  }

  /** Write id was started and its closing reading is over. */
  ghost predicate Closed(s: World, id: nat) {
    !(id in s.jobs && (s.jobs[id].phase.Body? || s.jobs[id].phase.Settling?))
  }

  ghost predicate KeptFresh(r: Run, t: nat)
    requires t < |r.states|
  {
    forall v, id :: 0 <= v <= t && BodyRuns(r.states[v], id) && Closed(r.states[t], id) ==>
      r.states[t].lock.settled.Some? && v < r.states[t].lock.settled.value.begin
  }

  lemma {:induction false} StaysFresh(r: Run, t: nat)
    requires r.Valid() && t < |r.states| && SettlesSigned(r)
    ensures KeptFresh(r, t)
  {
    if t > 0 {
      StaysFresh(r, t - 1);
      AllClean(r, t - 1);
      LockHolds(r, t - 1);
      assert r.StepAt(t - 1);
      var s, s' := r.states[t - 1], r.states[t];
      forall v, id | 0 <= v <= t && BodyRuns(r.states[v], id) && Closed(s', id)
        ensures s'.lock.settled.Some? && v < s'.lock.settled.value.begin
      {
        assert v < t;
        FreshStep(r, t - 1, v, id);
      }
    }
  }

  lemma BeforeQuiet(r: Run, a: nat, b: nat, v: nat, id: nat)
    requires b < |r.states| && QuietFrom(r, a, b) && v <= b && BodyRuns(r.states[v], id)
    ensures v < a
  {
  }

  lemma FreshStep(r: Run, t: nat, v: nat, id: nat)
    requires r.Valid() && t < |r.steps| && SettlesSigned(r) && KeptFresh(r, t) && ReadersClean(r, t) &&
      SettlingClean(r, t)
    requires LockInv(r.states[t]) && r.states[t].now == t
    requires v <= t && BodyRuns(r.states[v], id) && Closed(r.states[t + 1], id)
    ensures r.states[t + 1].lock.settled.Some? && v < r.states[t + 1].lock.settled.value.begin
  {
    assert r.StepAt(t);
    var e := r.steps[t];
    match e
    case SettleEnds(job, _, _, _) =>
      BeforeQuiet(r, r.states[t].jobs[job].phase.begin, t, v, id);
    case ReadEnds(k, _, _, _) =>
      assert Closed(r.states[t], id);
      var p := r.states[t].readers[k];
      if p.IdleRead? && p.at == r.states[t].lock.writes { BeforeQuiet(r, p.begin, t, v, id); }
    case _ =>
      assert Closed(r.states[t], id);
  }

  /** When every write closes with a signed reading, a signed reply is never older than the writes that are over: each
      of their bodies ended before its reading began. Only the write now running can be newer. */
  lemma SignedRepliesAreFresh(r: Run, t: nat, who: nat, x: Reading, v: nat, id: nat)
    requires r.Valid() && t < |r.steps| && Enabled(r.states[t], r.steps[t]) && SettlesSigned(r)
    requires Answers(r.states[t], r.steps[t], who, Chain(x)) && x.signed
    requires v <= t && BodyRuns(r.states[v], id) && Closed(r.states[t], id)
    ensures v < x.begin
  {
    AllClean(r, t);
    LockHolds(r, t);
    StaysFresh(r, t);
    SignedRepliesAreClean(r, t, who, x);
  }

  // ---- callers share one body ----

  /** Step i starts write id, or joins it. */
  ghost predicate Awaits(r: Run, i: nat, caller: nat, key: Key, id: nat)
    requires i < |r.steps| && i < |r.states|
  {
    var e := r.steps[i];
    e.Write? && e.caller == caller && e.key == key &&
    (Admit(r.states[i].lock, e.key, e.op, e.held, e.root).1 == Joined(id) ||
      Admit(r.states[i].lock, e.key, e.op, e.held, e.root).1 == Started(id))
  }

  lemma {:induction false} StillWaiting(r: Run, i: nat, caller: nat, key: Key, id: nat, k: nat)
    requires r.Valid() && i < |r.steps| && Awaits(r, i, caller, key, id) && i < k < |r.states|
    ensures r.states[k].lock.writes > id
    ensures id in r.states[k].jobs ==> caller in r.states[k].jobs[id].waiters && r.states[k].jobs[id].w.key == key
  {
    LockHolds(r, k - 1);
    assert r.StepAt(k - 1);
    if k - 1 > i { StillWaiting(r, i, caller, key, id, k - 1); }
  }

  /** Whoever starts a write or calls it again while it runs is answered when it resolves, with that write's outcome,
      and asked for that very write. */
  lemma JoinersGetThatResult(r: Run, i: nat, j: nat, caller: nat, key: Key, id: nat)
    requires r.Valid() && i < j < |r.steps| && Awaits(r, i, caller, key, id)
    requires r.steps[j].Resolves? && r.steps[j].id == id && Enabled(r.states[j], r.steps[j])
    ensures r.states[j].jobs[id].w.key == key
    ensures Answers(r.states[j], r.steps[j], caller, Result(id, r.states[j].jobs[id].phase.out))
  {
    StillWaiting(r, i, caller, key, id, j);
  }

  ghost predicate EndedWith(r: Run, t: nat, id: nat, out: Outcome)
    requires t <= |r.steps|
  {
    exists b :: 0 <= b < t && r.steps[b] == BodyEnds(id, out)
  }

  /** What jobs and the remembered result say was returned by a body that ended. */
  ghost predicate OutcomesTrue(r: Run, t: nat)
    requires t < |r.states| == |r.steps| + 1
  {
    var s := r.states[t];
    && (forall id :: id in s.jobs && !s.jobs[id].phase.Body? ==> EndedWith(r, t, id, s.jobs[id].phase.out))
    && (s.lock.lastApplied.Some? ==>
      EndedWith(r, t, s.lock.lastApplied.value.id, Returned(true, s.lock.lastApplied.value.result)))
  }

  lemma EndedLater(r: Run, t: nat, id: nat, out: Outcome)
    requires t < |r.steps| && EndedWith(r, t, id, out)
    ensures EndedWith(r, t + 1, id, out)
  {
    var b :| 0 <= b < t && r.steps[b] == BodyEnds(id, out);
    assert 0 <= b < t + 1 && r.steps[b] == BodyEnds(id, out);
  }

  lemma {:induction false} OutcomesHold(r: Run, t: nat)
    requires r.Valid() && t < |r.states|
    ensures OutcomesTrue(r, t)
  {
    if t > 0 {
      OutcomesHold(r, t - 1);
      LockHolds(r, t - 1);
      assert r.StepAt(t - 1);
      var s, s', e := r.states[t - 1], r.states[t], r.steps[t - 1];
      forall id | id in s'.jobs && !s'.jobs[id].phase.Body? ensures EndedWith(r, t, id, s'.jobs[id].phase.out) {
        if e.BodyEnds? && e.id == id {
          assert 0 <= t - 1 < t && r.steps[t - 1] == BodyEnds(id, e.out);
        } else {
          EndedLater(r, t - 1, id, s'.jobs[id].phase.out);
        }
      }
      if s'.lock.lastApplied.Some? {
        var a := s'.lock.lastApplied.value;
        EndedLater(r, t - 1, a.id, Returned(true, a.result));
      }
    }
  }

  /** A write's body ends once, so its callers share one outcome. */
  lemma {:induction false} BodyEndsOnce(r: Run, a: nat, b: nat, id: nat)
    requires r.Valid() && a < b < |r.steps| && r.steps[a].BodyEnds? && r.steps[a].id == id
    ensures !(r.steps[b].BodyEnds? && r.steps[b].id == id)
  {
    PastBody(r, a, id, b);
    assert r.StepAt(b);
  }

  lemma {:induction false} PastBody(r: Run, a: nat, id: nat, k: nat)
    requires r.Valid() && a < k < |r.states| && r.steps[a].BodyEnds? && r.steps[a].id == id
    ensures !BodyRuns(r.states[k], id) && r.states[k].lock.writes > id
  {
    LockHolds(r, k - 1);
    assert r.StepAt(k - 1);
    if k - 1 > a { PastBody(r, a, id, k - 1); }
  }

  /** A repeated answer is the outcome of the last write started: it succeeded, and nothing was written since. */
  lemma RepeatedIsLast(r: Run, t: nat, who: nat, result: Value)
    requires r.Valid() && t < |r.steps| && Enabled(r.states[t], r.steps[t])
    requires Answers(r.states[t], r.steps[t], who, Repeated(result))
    ensures r.states[t].lock.writes > 0 && EndedWith(r, t, r.states[t].lock.writes - 1, Returned(true, result))
    ensures r.states[t].jobs == map[]
  {
    LockHolds(r, t);
    OutcomesHold(r, t);
  }

  // ---- when an answer is repeated ----

  /** Step s starts write id: that call, with that operation. */
  ghost predicate StartedBy(r: Run, s: nat, id: nat, key: Key, op: Op)
    requires r.Valid() && s < |r.steps|
  {
    && r.steps[s].Write? && r.steps[s].key == key && r.steps[s].op == op
    && r.states[s].lock.writes == id && r.states[s + 1].lock.writes == id + 1
  }

  /** Before time t, write id was started by that call. */
  ghost predicate StartedBefore(r: Run, t: nat, id: nat, key: Key, op: Op)
    requires r.Valid() && t <= |r.steps|
  {
    exists s: nat :: s < t && StartedBy(r, s, id, key, op)
  }

  /** Before time t, write id resolved while the ledger held that much under that root. */
  ghost predicate ResolvedAt(r: Run, t: nat, id: nat, held: nat, root: nat)
    requires t <= |r.steps|
  {
    exists u: nat :: u < t && r.steps[u] == Resolves(id, held, root)
  }

  /** Write id, started by that call, rebuilt the ledger with that result and left it holding that much under that
      root. */
  ghost predicate Completed(r: Run, t: nat, id: nat, key: Key, held: nat, root: nat, result: Value)
    requires r.Valid() && t <= |r.steps|
  {
    && (StartedBefore(r, t, id, key, RebuildLedger) || StartedBefore(r, t, id, key, ApplyCanonical))
    && ResolvedAt(r, t, id, held, root) && EndedWith(r, t, id, Returned(true, result))
  }

  lemma CompletedLater(r: Run, t: nat, id: nat, key: Key, held: nat, root: nat, result: Value)
    requires r.Valid() && t < |r.steps|
    ensures Completed(r, t, id, key, held, root, result) ==> Completed(r, t + 1, id, key, held, root, result)
  {
    if EndedWith(r, t, id, Returned(true, result)) { EndedLater(r, t, id, Returned(true, result)); }
  }

  ghost predicate JobsTrue(r: Run, t: nat)
    requires r.Valid() && t < |r.states|
  {
    forall id :: id in r.states[t].jobs ==> JobTrue(r, t, id, r.states[t].jobs[id].w)
  }

  ghost predicate JobTrue(r: Run, t: nat, id: nat, w: Writing)
    requires r.Valid() && t < |r.states|
  {
    StartedBefore(r, t, id, w.key, w.op)
  }

  /** Every job was started by the call it names, and what is remembered was completed as remembered. */
  ghost predicate RemembersTruly(r: Run, t: nat)
    requires r.Valid() && t < |r.states|
  {
    var s := r.states[t];
    && JobsTrue(r, t)
    && (s.lock.lastApplied.Some? ==>
          var a := s.lock.lastApplied.value; Completed(r, t, a.id, a.key, a.held, a.root, a.result))
  }

  lemma {:induction false} AlwaysTruly(r: Run, t: nat)
    requires r.Valid() && t < |r.states|
    ensures RemembersTruly(r, t)
  {
    if t > 0 {
      AlwaysTruly(r, t - 1);
      LockHolds(r, t - 1);
      OutcomesHold(r, t - 1);
      JobsTruly(r, t - 1);
      AppliedTruly(r, t - 1);
    }
  }

  lemma JobsTruly(r: Run, t: nat)
    requires r.Valid() && t < |r.steps| && RemembersTruly(r, t) && LockInv(r.states[t])
    ensures JobsTrue(r, t + 1)
  {
    assert r.StepAt(t);
    var s, s', e := r.states[t], r.states[t + 1], r.steps[t];
    forall id | id in s'.jobs ensures JobTrue(r, t + 1, id, s'.jobs[id].w) {
      if id in s.jobs && s.jobs[id].w == s'.jobs[id].w {
        assert JobTrue(r, t, id, s.jobs[id].w);
        var b: nat :| b < t && StartedBy(r, b, id, s.jobs[id].w.key, s.jobs[id].w.op);
      } else {
        assert StartedBy(r, t, id, e.key, e.op);
      }
    }
  }

  lemma AppliedTruly(r: Run, t: nat)
    requires r.Valid() && t < |r.steps| && RemembersTruly(r, t) && LockInv(r.states[t]) && OutcomesTrue(r, t)
    ensures r.states[t + 1].lock.lastApplied.Some? ==>
      var a := r.states[t + 1].lock.lastApplied.value; Completed(r, t + 1, a.id, a.key, a.held, a.root, a.result)
  {
    assert r.StepAt(t);
    var s, s', e := r.states[t], r.states[t + 1], r.steps[t];
    if s'.lock.lastApplied.Some? {
      var a := s'.lock.lastApplied.value;
      if s.lock.lastApplied == s'.lock.lastApplied {
        CompletedLater(r, t, a.id, a.key, a.held, a.root, a.result);
      } else {
        var w := s.jobs[e.id].w;
        assert r.steps[t] == Resolves(a.id, a.held, a.root);
        assert JobTrue(r, t, e.id, w);
        var b: nat :| b < t && StartedBy(r, b, w.id, w.key, w.op);
        EndedLater(r, t, a.id, Returned(true, a.result));
      }
    }
  }

  /** Once completed, the outcome stays remembered until another write starts. */
  lemma {:induction false} StaysApplied(r: Run, u: nat, t: nat, a: Applied)
    requires r.Valid() && u <= t < |r.states| && r.states[u].lock.lastApplied == Some(a) &&
      r.states[u].lock.writing == None
    requires r.states[t].lock.writes == r.states[u].lock.writes
    ensures r.states[t].lock.lastApplied == Some(a) && r.states[t].lock.writing == None
    decreases t
  {
    if u < t {
      LockHolds(r, t - 1);
      WritesGrow(r, u, t - 1);
      assert r.StepAt(t - 1);
      StaysApplied(r, u, t - 1, a);
    }
  }

  lemma {:induction false} WritesGrow(r: Run, u: nat, t: nat)
    requires r.Valid() && u <= t < |r.states|
    ensures r.states[u].lock.writes <= r.states[t].lock.writes
    ensures t + 1 < |r.states| ==> r.states[t].lock.writes <= r.states[t + 1].lock.writes
    decreases t
  {
    if t + 1 < |r.states| { assert r.StepAt(t); }
    if u < t { WritesGrow(r, u, t - 1); }
  }

  /** A started write keeps its call until it resolves. */
  lemma {:induction false} KeepsCall(r: Run, s: nat, id: nat, key: Key, op: Op, k: nat)
    requires r.Valid() && s < |r.steps| && StartedBy(r, s, id, key, op) && s < k < |r.states|
    ensures r.states[k].lock.writes > id
    ensures id in r.states[k].jobs ==> r.states[k].jobs[id].w == Writing(id, key, op)
    decreases k
  {
    LockHolds(r, k - 1);
    assert r.StepAt(k - 1);
    if k - 1 > s { KeepsCall(r, s, id, key, op, k - 1); }
  }

  /** The completion of a write, once it has happened, is remembered as long as no other write starts. */
  lemma CompletedIsRemembered(r: Run, t: nat, id: nat, key: Key, held: nat, root: nat, result: Value)
    requires r.Valid() && t < |r.states| && Completed(r, t, id, key, held, root, result)
    requires r.states[t].lock.writes == id + 1
    ensures r.states[t].lock.lastApplied.Some? && r.states[t].lock.writing == None
    ensures var a := r.states[t].lock.lastApplied.value;
      a.key == key && a.held == held && a.root == root && a.result == result
  {
    var op := if StartedBefore(r, t, id, key, RebuildLedger) then RebuildLedger else ApplyCanonical;
    var s: nat :| s < t && StartedBy(r, s, id, key, op);
    var u: nat :| u < t && r.steps[u] == Resolves(id, held, root);
    assert r.StepAt(u);
    LockHolds(r, u);
    OutcomesHold(r, u);
    assert id < r.states[u].lock.writes;
    if u <= s { WritesGrow(r, u, s); }
    KeepsCall(r, s, id, key, op, u);
    var out := r.states[u].jobs[id].phase.out;
    var b :| 0 <= b < u && r.steps[b] == BodyEnds(id, out);
    var b' :| 0 <= b' < t && r.steps[b'] == BodyEnds(id, Returned(true, result));
    if b < b' { BodyEndsOnce(r, b, b', id); }
    if b' < b { BodyEndsOnce(r, b', b, id); }
    WritesGrow(r, u + 1, t);
    StaysApplied(r, u + 1, t, Applied(key, held, root, result, id));
  }

  /** A call is answered by repetition if and only if the last write started was a rebuild by that very call, completed
      with that result, that left the ledger holding exactly what it holds now, under the same root. */
  lemma RepeatedIff(r: Run, t: nat, result: Value)
    requires r.Valid() && t < |r.steps| && r.steps[t].Write?
    ensures var e := r.steps[t]; var n := r.states[t].lock.writes;
      Answers(r.states[t], e, e.caller, Repeated(result)) <==>
        n > 0 && Completed(r, t, n - 1, e.key, e.held, e.root, result)
  {
    assert r.StepAt(t);
    LockHolds(r, t);
    AlwaysTruly(r, t);
    var e, n := r.steps[t], r.states[t].lock.writes;
    if n > 0 && Completed(r, t, n - 1, e.key, e.held, e.root, result) {
      CompletedIsRemembered(r, t, n - 1, e.key, e.held, e.root, result);
    }
  }

  // ---- what an undisturbed reading is worth ----

  lemma {:induction false} StillReading(r: Run, a: nat, b: nat, k: nat)
    requires r.Valid() && a < b < |r.states| && r.steps[a] == ReadBegins(k) && r.states[a].lock.writing.None?
    requires forall v :: a < v < b ==> !(r.steps[v].ReadEnds? && r.steps[v].read == k)
    ensures k in r.states[b].readers && r.states[b].readers[k] == IdleRead(a, r.states[a].lock.writes)
    decreases b
  {
    LockHolds(r, b - 1);
    assert r.StepAt(b - 1);
    if a < b - 1 { StillReading(r, a, b - 1, k); }
  }

  /** A chain reading that no write started under is answered as it was read, signature and all. */
  lemma UndisturbedIsPassedOn(r: Run, a: nat, b: nat, k: nat)
    requires r.Valid() && a < b < |r.steps| && r.steps[a] == ReadBegins(k) && r.states[a].lock.writing.None?
    requires r.steps[b].ReadEnds? && r.steps[b].read == k
    requires forall v :: a < v < b ==> !(r.steps[v].ReadEnds? && r.steps[v].read == k)
    requires r.states[a].lock.writes == r.states[b].lock.writes
    ensures Enabled(r.states[b], r.steps[b])
    ensures var e := r.steps[b]; Answers(r.states[b], e, k, Chain(Reading(a, b, e.ok, e.signed, e.value)))
    ensures var e := r.steps[b]; e.ok && e.signed ==>
      r.states[b + 1].lock.settled == Some(Reading(a, b, true, true, e.value))
  {
    assert r.StepAt(b);
    StillReading(r, a, b, k);
    LockHolds(r, b);
  }

  lemma {:induction false} StaysSettled(r: Run, b: nat, t: nat, x: Reading)
    requires r.Valid() && b <= t < |r.states| && r.states[b].lock.settled == Some(x)
    requires forall v :: b <= v < t ==> !r.steps[v].ReadEnds? && !r.steps[v].SettleEnds?
    ensures r.states[t].lock.settled == Some(x)
    decreases t
  {
    if b < t {
      StaysSettled(r, b, t - 1, x);
      assert r.StepAt(t - 1);
    }
  }

  /** And it is what a write that runs next hands out, as long as no newer reading ends. */
  lemma UndisturbedIsHandedOut(r: Run, a: nat, b: nat, k: nat, t: nat, k': nat)
    requires r.Valid() && a < b < t < |r.steps| && r.steps[a] == ReadBegins(k) && r.states[a].lock.writing.None?
    requires r.steps[b].ReadEnds? && r.steps[b].read == k && r.steps[b].ok && r.steps[b].signed
    requires forall v :: a < v < b ==> !(r.steps[v].ReadEnds? && r.steps[v].read == k)
    requires r.states[a].lock.writes == r.states[b].lock.writes
    requires forall v :: b < v < t ==> !r.steps[v].ReadEnds? && !r.steps[v].SettleEnds?
    requires r.steps[t] == ReadBegins(k') && r.states[t].lock.writing.Some?
    ensures Enabled(r.states[t], r.steps[t])
    ensures Answers(r.states[t], r.steps[t], k', Chain(Reading(a, b, true, true, r.steps[b].value)))
  {
    assert r.StepAt(t);
    UndisturbedIsPassedOn(r, a, b, k);
    StaysSettled(r, b + 1, t, Reading(a, b, true, true, r.steps[b].value));
  }
}
