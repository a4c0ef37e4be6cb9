/** Peers' release claims: each is only a reason to ask the release source, and asking backs off. */
module Release {
  import opened Ordering
  import opened JsMap

  datatype Version = Version(major: nat, minor: nat, patch: nat)

  ghost predicate Less(a: Version, b: Version) {
    a.major < b.major || (a.major == b.major && (a.minor < b.minor || (a.minor == b.minor && a.patch < b.patch)))
  }

  /** Numeric triples, compared in order. */
  function Compare(a: Version, b: Version): (r: int)
    ensures r == 0 <==> a == b
    ensures r < 0 <==> Less(a, b)
    ensures r > 0 <==> Less(b, a)
  {
    if a.major != b.major then (if a.major < b.major then -1 else 1)
    else if a.minor != b.minor then (if a.minor < b.minor then -1 else 1)
    else if a.patch != b.patch then (if a.patch < b.patch then -1 else 1)
    else 0
  }

  /** What the node runs, the shortest and longest wait, and the release line it follows. */
  datatype Config = Config(running: Version, minMs: nat, maxMs: nat, onTrack: Version -> bool) {
    function Cap(): nat { if minMs > maxMs then minMs else maxMs }
  }

  datatype Trigger = Trigger(wait: nat, nextAt: nat, highest: Option<Version>, known: Option<Version>)

  function Start(c: Config): Trigger { Trigger(c.minMs, 0, None, None) }

  /** A claim this node could act on: a version on its line, newer than what runs and than what is confirmed. */
  predicate Relevant(c: Config, s: Trigger, v: Option<Version>) {
    v.Some? && c.onTrack(v.value) && Compare(v.value, c.running) > 0 &&
      (s.known.Some? ==> Compare(v.value, s.known.value) > 0)
  }

  function Offer(c: Config, s: Trigger, v: Option<Version>, t: nat): (Trigger, bool) {
    if !Relevant(c, s, v) then (s, false)
    else
      var highest := if s.highest.None? || Compare(v.value, s.highest.value) > 0 then v else s.highest;
      if t < s.nextAt then (s.(highest := highest), false)
      else
        var wait := if s.wait * 2 < c.Cap() then s.wait * 2 else c.Cap();
        (s.(highest := highest, nextAt := t + s.wait, wait := wait), true)
  }

  predicate Resets(s: Trigger, latest: Option<Version>) {
    latest.Some? && s.highest.Some? && Compare(latest.value, s.highest.value) >= 0
  }

  /** The source's answer, None when it could not be reached. */
  function Settle(c: Config, s: Trigger, latest: Option<Version>): Trigger {
    var confirms := latest.Some? && c.onTrack(latest.value) && Compare(latest.value, c.running) > 0;
    var t := if confirms then s.(known := latest) else s;
    if Resets(s, latest) then t.(wait := c.minMs, nextAt := 0, highest := None) else t
  }

  ghost predicate Acts(c: Config, known: Option<Version>, v: Option<Version>) {
    v.Some? && c.onTrack(v.value) && Less(c.running, v.value) && (known.Some? ==> Less(known.value, v.value))
  }

  class PeerReleaseTrigger {
    const config: Config
    var wait: nat
    var nextAt: nat
    var highest: Option<Version>
    var known: Option<Version>

    ghost function State(): Trigger reads this { Trigger(wait, nextAt, highest, known) }

    constructor (config: Config)
      ensures this.config == config && State() == Start(config)
    {
      this.config := config;
      wait, nextAt, highest, known := config.minMs, 0, None, None;
    }

    method OfferVersion(v: Option<Version>, now: nat) returns (look: bool)
      modifies this
      ensures (State(), look) == Offer(config, old(State()), v, now)
      // A look is granted to a claim on the node's line, newer than what runs and what is confirmed, once the wait is
      // over; it starts the next wait and doubles the one after, up to the cap.
      ensures look <==> Acts(config, old(known), v) && old(nextAt) <= now
      ensures look ==>
        && nextAt == now + old(wait) && (wait == config.Cap() || wait == 2 * old(wait))
        && wait <= 2 * old(wait) && wait <= config.Cap()
      ensures !look ==> wait == old(wait) && nextAt == old(nextAt)
      // The highest claim is kept, granted or not.
      ensures highest == if Acts(config, old(known), v) &&
        (old(highest).None? || Less(old(highest).value, v.value)) then v
        else old(highest)
      ensures known == old(known)
    {
      if v.None? || !config.onTrack(v.value) || Compare(v.value, config.running) <= 0 { return false; }
      if known.Some? && Compare(v.value, known.value) <= 0 { return false; }
      if highest.None? || Compare(v.value, highest.value) > 0 { highest := v; }
      if now < nextAt { return false; }
      nextAt := now + wait;
      wait := if wait * 2 < config.Cap() then wait * 2 else config.Cap();
      return true;
    }

    method SettleVersion(latest: Option<Version>)
      modifies this
      ensures State() == Settle(config, old(State()), latest)
      // A release newer than what runs, on the node's line, is confirmed. One no older than the highest claim ends the
      // wait and clears the claim, on the line or not.
      ensures known == if latest.Some? && config.onTrack(latest.value) && Less(config.running, latest.value) then latest
        else old(known)
      ensures latest.Some? && old(highest).Some? && !Less(latest.value, old(highest).value) ==>
        wait == config.minMs && nextAt == 0 && highest.None?
      ensures latest.None? || old(highest).None? || Less(latest.value, old(highest).value) ==>
        wait == old(wait) && nextAt == old(nextAt) && highest == old(highest)
    {
      if latest.Some? && config.onTrack(latest.value) && Compare(latest.value, config.running) > 0 { known := latest; }
      if latest.Some? && highest.Some? && Compare(latest.value, highest.value) >= 0 {
        wait, nextAt, highest := config.minMs, 0, None;
      }
    }
  }

  // ---- runs ----

  datatype Step = Offered(v: Option<Version>, at: nat) | Answered(latest: Option<Version>)

  /** The trigger, and the moments of the looks granted since the last reset. */
  datatype Run = Run(s: Trigger, looks: seq<nat>)

  function Exec(c: Config, r: Run, e: Step): Run {
    match e
    case Offered(v, at) =>
      var (s, look) := Offer(c, r.s, v, at);
      Run(s, if look then r.looks + [at] else r.looks)
    case Answered(latest) => Run(Settle(c, r.s, latest), if Resets(r.s, latest) then [] else r.looks)
  }

  function ExecAll(c: Config, steps: seq<Step>): Run {
    if steps == [] then Run(Start(c), []) else Exec(c, ExecAll(c, steps[..|steps| - 1]), steps[|steps| - 1])
  }

  function Pow2(n: nat): (r: nat)
    ensures r > 0
  {
    if n == 0 then 1 else 2 * Pow2(n - 1)
  }

  /** The wait after the k-th look since a reset. */
  function Backoff(c: Config, k: nat): nat {
    if c.minMs * Pow2(k) < c.Cap() then c.minMs * Pow2(k) else c.Cap()
  }

  lemma BackoffDoubles(c: Config, k: nat)
    ensures Backoff(c, k + 1) == if Backoff(c, k) * 2 < c.Cap() then Backoff(c, k) * 2 else c.Cap()
    ensures Backoff(c, 0) == c.minMs
  {
    assert c.minMs * Pow2(k + 1) == (c.minMs * Pow2(k)) * 2;
    assert c.minMs * 1 == c.minMs;
  }

  ghost predicate Spaced(c: Config, looks: seq<nat>) {
    forall k :: 0 <= k < |looks| - 1 ==> looks[k + 1] >= looks[k] + Backoff(c, k)
  }

  ghost predicate BackingOff(c: Config, r: Run) {
    && Spaced(c, r.looks)
    && r.s.wait == Backoff(c, |r.looks|)
    && (r.looks == [] ==> r.s.nextAt == 0)
    && (r.looks != [] ==> r.s.nextAt == r.looks[|r.looks| - 1] + Backoff(c, |r.looks| - 1))
  }

  /** Claims cost a bounded number of lookups: between resets, look k+1 comes at least min(minMs * 2^k, maxMs) after
      look k, counting from k = 0, whatever was offered. */
  lemma {:induction false} LooksAreSpaced(c: Config, steps: seq<Step>)
    ensures BackingOff(c, ExecAll(c, steps))
  {
    if steps == [] {
      BackoffDoubles(c, 0);
    } else {
      LooksAreSpaced(c, steps[..|steps| - 1]);
      StepBacksOff(c, ExecAll(c, steps[..|steps| - 1]), steps[|steps| - 1]);
    }
  }

  lemma StepBacksOff(c: Config, r: Run, e: Step)
    requires BackingOff(c, r)
    ensures BackingOff(c, Exec(c, r, e))
  {
    hide Compare, Relevant;
    BackoffDoubles(c, 0);
    if e.Offered? {
      BackoffDoubles(c, |r.looks|);
      hide Backoff;
      if Offer(c, r.s, e.v, e.at).1 {
        var looks := r.looks + [e.at];
        forall k | 0 <= k < |looks| - 1 ensures looks[k + 1] >= looks[k] + Backoff(c, k) {
          if k + 1 < |r.looks| { assert looks[k + 1] == r.looks[k + 1] && looks[k] == r.looks[k]; }
        }
      }
    }
  }

  // ---- resets ----

  /** What has been offered but not confirmed is newer than what is confirmed. */
  ghost predicate Ahead(c: Config, s: Trigger) {
    s.highest.Some? ==>
      Compare(s.highest.value, c.running) > 0 && (s.known.Some? ==> Compare(s.highest.value, s.known.value) > 0)
  }

  lemma CompareTransitive(a: Version, b: Version, d: Version)
    ensures Compare(a, b) >= 0 && Compare(b, d) > 0 ==> Compare(a, d) > 0
    ensures Compare(a, b) > 0 && Compare(b, d) >= 0 ==> Compare(a, d) > 0
    ensures Compare(a, b) >= 0 && Compare(b, d) >= 0 ==> Compare(a, d) >= 0
  {
  }

  lemma AheadStep(c: Config, r: Run, e: Step)
    requires Ahead(c, r.s)
    ensures Ahead(c, Exec(c, r, e).s)
  {
    if e.Offered? && r.s.highest.Some? && r.s.known.Some? && e.v.Some? {
      CompareTransitive(e.v.value, r.s.highest.value, r.s.known.value);
    }
  }

  lemma {:induction false} AlwaysAhead(c: Config, steps: seq<Step>)
    ensures Ahead(c, ExecAll(c, steps).s)
  {
    if steps != [] {
      AlwaysAhead(c, steps[..|steps| - 1]);
      AheadStep(c, ExecAll(c, steps[..|steps| - 1]), steps[|steps| - 1]);
    }
  }

  ghost function Known(s: Trigger): Version { if s.known.Some? then s.known.value else Version(0, 0, 0) }

  /** In every reachable state, a reset confirms a strictly newer version than was known if and only if the answer is on
      this node's line; off the line it clears the back-off and confirms nothing. */
  lemma {:induction false} ResetConfirmsNewer(c: Config, steps: seq<Step>, latest: Option<Version>)
    requires Resets(ExecAll(c, steps).s, latest)
    ensures var s := ExecAll(c, steps).s; var t := Settle(c, s, latest);
      && (c.onTrack(latest.value) ==> t.known == latest && (s.known.Some? ==> Compare(latest.value, s.known.value) > 0))
      && (!c.onTrack(latest.value) ==> t.known == s.known)
  {
    AlwaysAhead(c, steps);
    var s := ExecAll(c, steps).s;
    CompareTransitive(latest.value, s.highest.value, c.running);
    if s.known.Some? { CompareTransitive(latest.value, s.highest.value, s.known.value); }
  }

  /** After a reset, the claim that led to it is granted another look at once if and only if the answer was off the
      node's line: then nothing was confirmed and nothing is waited for. */
  lemma {:induction false} ClaimRepeatsIffOffTrack(c: Config, steps: seq<Step>, v: Version, latest: Version, at: nat)
    requires var s := ExecAll(c, steps).s; s.highest == Some(v) && Relevant(c, s, Some(v)) && Resets(s, Some(latest))
    ensures Offer(c, Settle(c, ExecAll(c, steps).s, Some(latest)), Some(v), at).1 <==> !c.onTrack(latest)
  {
    CompareTransitive(latest, v, c.running);
  }

  /** How many looks a run grants at one moment. */
  function LooksAt(c: Config, steps: seq<Step>, at: nat): nat {
    if steps == [] then 0
    else
      var n := |steps| - 1;
      LooksAt(c, steps[..n], at) +
        if steps[n].Offered? && steps[n].at == at && Offer(c, ExecAll(c, steps[..n]).s, steps[n].v, at).1 then 1 else 0
  }

  /** A claim and an answer, n times. */
  function ClaimedTimes(v: Version, latest: Version, at: nat, n: nat): seq<Step> {
    if n == 0 then [] else ClaimedTimes(v, latest, at, n - 1) + [Offered(Some(v), at), Answered(Some(latest))]
  }

  /** So one claim of a version on the node's line, ahead of what runs, is looked up any number of times at one moment
      when the source's latest is at least as new and off the line: each answer puts the trigger back where it
      started. */
  lemma {:induction false} LooksWithoutEnd(c: Config, v: Version, latest: Version, at: nat, n: nat)
    requires Relevant(c, Start(c), Some(v)) && !c.onTrack(latest) && Compare(latest, v) >= 0
    ensures var steps := ClaimedTimes(v, latest, at, n);
      LooksAt(c, steps, at) == n && ExecAll(c, steps).s == Start(c)
  {
    if n > 0 {
      hide Compare, Relevant;
      LooksWithoutEnd(c, v, latest, at, n - 1);
      var front := ClaimedTimes(v, latest, at, n - 1);
      var offered := front + [Offered(Some(v), at)];
      var steps := offered + [Answered(Some(latest))];
      assert ClaimedTimes(v, latest, at, n) == steps;
      assert offered[..|front|] == front && steps[..|offered|] == offered;
      assert ExecAll(c, offered).s.highest == Some(v) && ExecAll(c, offered).s.known == None;
      ClaimRepeatsIffOffTrack(c, offered, v, latest, at);
    }
  }

  /** An answer with a version in it. */
  predicate Tells(e: Step) { e.Answered? && e.latest.Some? }

  /** The source only ever answers with versions on the line, and never an older one than before. */
  ghost predicate Steady(c: Config, steps: seq<Step>) {
    && (forall i :: 0 <= i < |steps| && Tells(steps[i]) ==> c.onTrack(steps[i].latest.value))
    && forall i, j :: 0 <= i < j < |steps| && Tells(steps[i]) && Tells(steps[j]) ==>
         Compare(steps[j].latest.value, steps[i].latest.value) >= 0
  }

  /** Step i resets the trigger. */
  ghost predicate ResetAt(c: Config, steps: seq<Step>, i: nat)
    requires i < |steps|
  {
    steps[i].Answered? && Resets(ExecAll(c, steps[..i]).s, steps[i].latest)
  }

  /** With a steady source, once a version is confirmed what is known is at least that from then on. */
  lemma {:induction false} KnownStays(c: Config, steps: seq<Step>, i: nat, j: nat)
    requires Steady(c, steps) && i < j <= |steps| && ResetAt(c, steps, i)
    ensures var s := ExecAll(c, steps[..j]).s; s.known.Some? && Compare(s.known.value, steps[i].latest.value) >= 0
  {
    assert steps[..j][..j - 1] == steps[..j - 1];
    if j == i + 1 {
      ResetConfirmsNewer(c, steps[..i], steps[i].latest);
    } else {
      KnownStays(c, steps, i, j - 1);
    }
  }

  /** So each reset needs a strictly newer answer than every reset before it. */
  lemma ResetsNeedNewerVersions(c: Config, steps: seq<Step>, i: nat, j: nat)
    requires Steady(c, steps) && i < j < |steps| && ResetAt(c, steps, i) && ResetAt(c, steps, j)
    ensures Compare(steps[j].latest.value, steps[i].latest.value) > 0
  {
    KnownStays(c, steps, i, j);
    ResetConfirmsNewer(c, steps[..j], steps[j].latest);
    CompareTransitive(steps[j].latest.value, ExecAll(c, steps[..j]).s.known.value, steps[i].latest.value);
  }
}
