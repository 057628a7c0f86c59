// The state of one ProxySelector (v2proxy/selector.go) as a value, what each of
// its lock-protected sections does to it, and the invariant they all keep.

module SelectorState {
  import opened Pool
  import opened Health

  /** What launching a child can come to: the config does not render, the process
      does not start or crashes at once, or it runs under some pid. */
  datatype Spawn = RenderFails | LaunchFails | Spawned(pid: nat)

  datatype State = State(
    configs: seq<ProxyConfig>,
    activeIndex: int,
    failCount: nat,
    okStreak: nat,
    handle: Option<nat>,              // xrayCmd: the pid it names
    live: map<nat, ProxyConfig>,      // the operating system's side: serving children and what they run
    latency: nat,
    lastProbe: Option<nat>,
    lastCheck: Option<nat>,
    activeSince: Option<nat>,
    unproven: Option<nat>)            // servingUnproven

  predicate InRange(s: State) {
    0 <= s.activeIndex < |s.configs|
  }

  function ActiveConfig(s: State): Option<ProxyConfig> {
    if InRange(s) then Some(s.configs[s.activeIndex]) else None
  }

  function ActiveKey(s: State): Option<string> {
    if InRange(s) then Some(s.configs[s.activeIndex].Key()) else None
  }

  /** The key a switch would fall back to: the active one, or none. */
  function OldKey(s: State): string {
    if InRange(s) then s.configs[s.activeIndex].Key() else ""
  }

  /** Holds whenever the selector lock is free. */
  ghost predicate Inv(s: State) {
    && (s.activeIndex == -1 || InRange(s))
    && (forall pid | pid in s.live :: s.handle == Some(pid))
    && (forall pid | pid in s.live && InRange(s) :: s.live[pid].Key() == s.configs[s.activeIndex].Key())
  }

  lemma AtMostOneChild(s: State)
    requires Inv(s)
    ensures |s.live| <= 1
  {
    if pid :| pid in s.live {
      assert s.live.Keys == {pid};
      assert |s.live| == |s.live.Keys|;
    }
  }

  function NewSelector(): State {
    State([], -1, 0, 0, None, map[], 0, None, None, None, None)
  }

  // ---- lock-protected sections ----

  function Refreshed(s: State, pool: seq<ProxyConfig>): State {
    var key := if InRange(s) then s.configs[s.activeIndex].Key() else "";
    s.(configs := pool, activeIndex := if key == "" then -1 else IndexOfKey(pool, key))
  }

  function Retained(s: State, cfg: ProxyConfig): State {
    var i := IndexOfKey(s.configs, cfg.Key());
    if i >= 0 then s.(activeIndex := i) else s.(configs := [cfg] + s.configs, activeIndex := 0)
  }

  function Stopped(s: State): State {
    if s.handle.Some? then s.(handle := None, live := s.live - {s.handle.value}) else s
  }

  function Started(s: State, index: int, spawn: Spawn): (State, bool) {
    if index < 0 || index >= |s.configs| || spawn.RenderFails? then (s, false)
    else
      var t := Stopped(s);
      match spawn
      case Spawned(pid) => (t.(handle := Some(pid), live := t.live[pid := s.configs[index]], unproven := None), true)
      case _ => (t, false)
  }

  function Adopted(s: State, index: int, latency: nat, now: nat): State {
    s.(activeIndex := index, latency := latency, lastProbe := Some(now),
       failCount := 0, okStreak := 0, activeSince := Some(now))
  }

  function Restored(s: State, oldKey: string, spawn: Spawn, now: nat): State {
    var i := if oldKey == "" then -1 else IndexOfKey(s.configs, oldKey);
    if i < 0 then s
    else
      var (t, ok) := Started(s, i, spawn);
      if ok then t.(activeIndex := i, failCount := 0, okStreak := 0, activeSince := Some(now)) else t
  }

  /** What the outside world does during one swap. */
  datatype SwapWorld = SwapWorld(start: Spawn, bound: bool, verify: HealthResult, restore: Spawn, now: nat)

  function Swapped(s: State, winKey: string, latency: nat, oldKey: string, w: SwapWorld): (State, bool) {
    var cur := IndexOfKey(s.configs, winKey);
    if cur < 0 then (s, false)
    else
      var (t, started) := Started(Stopped(s), cur, w.start);
      if !started then (Restored(t, oldKey, w.restore, w.now), false)
      else if !w.bound || !w.verify.working then (Restored(Stopped(t), oldKey, w.restore, w.now), false)
      else (Adopted(t, cur, latency, w.now), true)
  }

  const HEALTH_FAIL_THRESHOLD := 3

  /** A health check is either waved through by fresh client traffic or probes once. */
  datatype Evidence = Traffic | Probe(result: HealthResult)

  function HealthChecked(s: State, e: Evidence, now: nat): (State, bool) {
    if !InRange(s) then (s, false)
    else match e
      case Traffic => (s.(lastCheck := Some(now), failCount := 0, okStreak := s.okStreak + 1), true)
      case Probe(r) =>
        var t := s.(lastCheck := Some(now), latency := r.latency, lastProbe := Some(now));
        if r.working then
          (t.(failCount := 0, okStreak := s.okStreak + 1,
              activeSince := if s.activeSince.None? then Some(now) else s.activeSince), true)
        else if ProbeInconclusive(r) then (t, true)
        else (t.(failCount := s.failCount + 1, okStreak := 0), s.failCount + 1 < HEALTH_FAIL_THRESHOLD)
  }

  // ---- every section keeps the invariant ----

  lemma StoppedInv(s: State)
    requires Inv(s)
    ensures Inv(Stopped(s)) && Stopped(s).handle.None? && Stopped(s).live == map[]
  {
  }

  lemma RefreshedInv(s: State, pool: seq<ProxyConfig>)
    requires Inv(s)
    ensures var t := Refreshed(s, pool);
            && Inv(t) && t.handle == s.handle && t.live == s.live
            && (ActiveKey(t) == ActiveKey(s) || ActiveKey(t) == None)
            && (ActiveKey(s).Some? && ActiveKey(s).value != "" && ActiveKey(s).value in Keys(pool)
                ==> ActiveKey(t) == ActiveKey(s))
  {
  }

  /** Retaining is safe when the config it re-inserts is what the child runs: that
      is, when no switch landed since it was read. */
  lemma RetainedInv(s: State, cfg: ProxyConfig)
    requires Inv(s)
    requires forall pid | pid in s.live :: s.live[pid].Key() == cfg.Key()
    ensures var t := Retained(s, cfg);
            Inv(t) && ActiveKey(t) == Some(cfg.Key()) && t.handle == s.handle && t.live == s.live
  {
  }

  /** Without that, it is not: the exact condition. */
  lemma RetainedInvIff(s: State, cfg: ProxyConfig)
    requires Inv(s)
    ensures Inv(Retained(s, cfg)) <==> forall pid | pid in s.live :: s.live[pid].Key() == cfg.Key()
  {
    var t := Retained(s, cfg);
    assert t.live == s.live && InRange(t) && t.configs[t.activeIndex].Key() == cfg.Key();
  }

  /** No child at all; nothing else differs from `before`. */
  predicate ChildGone(before: State, after: State) {
    after == before.(handle := None, live := map[], unproven := after.unproven)
  }

  /** The child of `key` was started afresh and its config is the active one. */
  predicate Restarted(before: State, after: State, key: string) {
    && after.handle.Some? && after.configs == before.configs
    && ActiveKey(after) == Some(key)
    && after.live == map[after.handle.value := after.configs[after.activeIndex]]
    && after.failCount == 0 && after.okStreak == 0
  }

  lemma StartedOutcome(s: State, index: int, spawn: Spawn)
    requires s.handle.None? && s.live == map[] && 0 <= index < |s.configs|
    ensures var (t, ok) := Started(s, index, spawn);
            && (ok <==> spawn.Spawned?)
            && (ok ==> t == s.(handle := Some(spawn.pid), live := map[spawn.pid := s.configs[index]], unproven := None))
            && (!ok ==> t == s)
  {
  }

  /** Restoring the old upstream after its child was stopped. */
  lemma RestoredOutcome(before: State, s: State, oldKey: string, spawn: Spawn, now: nat)
    requires ChildGone(before, s)
    ensures var t := Restored(s, oldKey, spawn, now);
            && (oldKey != "" && oldKey in Keys(s.configs) && spawn.Spawned? ==>
                  Restarted(before, t, oldKey) && t.handle == Some(spawn.pid) && t.latency == s.latency)
            && (oldKey == "" || oldKey !in Keys(s.configs) || !spawn.Spawned? ==> ChildGone(before, t))
  {
    var i := IndexOfKey(s.configs, oldKey);
    if oldKey != "" && i >= 0 {
      StartedOutcome(s, i, spawn);
    }
  }

  lemma SwappedOutcome(s: State, winKey: string, latency: nat, oldKey: string, w: SwapWorld)
    requires Inv(s)
    ensures var (t, ok) := Swapped(s, winKey, latency, oldKey, w);
            && (ok <==> winKey in Keys(s.configs) && w.start.Spawned? && w.bound && w.verify.working)
            && (ok ==> Restarted(s, t, winKey) && t.handle == Some(w.start.pid)
                       && t.latency == latency && t.lastProbe == t.activeSince == Some(w.now))
            && (!ok && winKey !in Keys(s.configs) ==> t == s)
            && (!ok && winKey in Keys(s.configs) && oldKey != "" && oldKey in Keys(s.configs) && w.restore.Spawned?
                ==> Restarted(s, t, oldKey) && t.handle == Some(w.restore.pid) && t.latency == s.latency)
            && (!ok && winKey in Keys(s.configs) && (oldKey == "" || oldKey !in Keys(s.configs) || !w.restore.Spawned?)
                ==> ChildGone(s, t))
  {
    var cur := IndexOfKey(s.configs, winKey);
    if cur >= 0 {
      StoppedInv(s);
      StartedOutcome(Stopped(s), cur, w.start);
      var (t, started) := Started(Stopped(s), cur, w.start);
      if !started {
        RestoredOutcome(s, t, oldKey, w.restore, w.now);
      } else {
        assert ChildGone(s, Stopped(t));
        RestoredOutcome(s, Stopped(t), oldKey, w.restore, w.now);
      }
    }
  }

  /** Whether a swap ends with a fresh child: the winner's, or the old upstream's again. */
  predicate ChildComesUp(s: State, winKey: string, oldKey: string, w: SwapWorld) {
    winKey in Keys(s.configs)
    && ((w.start.Spawned? && w.bound && w.verify.working)
        || (oldKey != "" && oldKey in Keys(s.configs) && w.restore.Spawned?))
  }

  /** A fresh child starts from clean counters; otherwise a swap leaves them alone. */
  lemma SwappedCounters(s: State, winKey: string, latency: nat, oldKey: string, w: SwapWorld)
    ensures var t := Swapped(s, winKey, latency, oldKey, w).0;
            if ChildComesUp(s, winKey, oldKey, w) then t.failCount == t.okStreak == 0
            else t.failCount == s.failCount && t.okStreak == s.okStreak
  {
    var cur := IndexOfKey(s.configs, winKey);
    if cur >= 0 {
      var (t, started) := Started(Stopped(s), cur, w.start);
      StartedCounters(Stopped(s), cur, w.start);
      RestoredCounters(if started then Stopped(t) else t, oldKey, w.restore, w.now);
    }
  }

  lemma StartedCounters(s: State, index: int, spawn: Spawn)
    requires 0 <= index < |s.configs|
    ensures var (t, ok) := Started(s, index, spawn);
            && (ok <==> spawn.Spawned?)
            && t.configs == s.configs && t.failCount == s.failCount && t.okStreak == s.okStreak
  {
  }

  lemma RestoredCounters(s: State, oldKey: string, spawn: Spawn, now: nat)
    ensures var t := Restored(s, oldKey, spawn, now);
            if oldKey != "" && oldKey in Keys(s.configs) && spawn.Spawned? then t.failCount == t.okStreak == 0
            else t.failCount == s.failCount && t.okStreak == s.okStreak
  {
    var i := IndexOfKey(s.configs, oldKey);
    if oldKey != "" && i >= 0 {
      StartedCounters(s, i, spawn);
    }
  }

  lemma SwappedInv(s: State, winKey: string, latency: nat, oldKey: string, w: SwapWorld)
    requires Inv(s)
    ensures Inv(Swapped(s, winKey, latency, oldKey, w).0)
  {
    SwappedOutcome(s, winKey, latency, oldKey, w);
  }

  // ---- pool refreshes, any number of them ----

  function AfterRefreshes(s: State, pools: seq<seq<ProxyConfig>>): State
    decreases |pools|
  {
    if pools == [] then s else AfterRefreshes(Refreshed(s, pools[0]), pools[1..])
  }

  /** Refreshes never touch the child, and only ever keep or drop the active key. */
  lemma {:induction false} RefreshesKeepKeyOrDropIt(s: State, pools: seq<seq<ProxyConfig>>)
    requires Inv(s)
    ensures var t := AfterRefreshes(s, pools);
            && Inv(t) && t.handle == s.handle && t.live == s.live
            && (ActiveKey(t) == ActiveKey(s) || ActiveKey(t) == None)
            && t == s.(configs := t.configs, activeIndex := t.activeIndex)
    decreases |pools|
  {
    if pools != [] {
      RefreshedInv(s, pools[0]);
      RefreshesKeepKeyOrDropIt(Refreshed(s, pools[0]), pools[1..]);
    }
  }

  // ---- health over whole histories ----

  /** What the counters of one selector live through, oldest first: checks of a valid
      active config, and fresh children, adopted or restored. */
  datatype Event = Ticked(e: Evidence) | AdoptedUpstream

  predicate IsSuccess(e: Event) {
    e.Ticked? && (e.e.Traffic? || e.e.result.working)
  }

  predicate IsStrike(e: Event) {
    e.Ticked? && e.e.Probe? && !e.e.result.working && !ProbeInconclusive(e.e.result)
  }

  /** Strikes since the last success, passive proof or adoption. */
  function Strikes(h: seq<Event>): nat {
    if h == [] then 0
    else
      var last := h[|h| - 1];
      if IsSuccess(last) || last.AdoptedUpstream? then 0
      else Strikes(h[..|h| - 1]) + (if IsStrike(last) then 1 else 0)
  }

  /** Successes since the last strike or adoption. */
  function Streak(h: seq<Event>): nat {
    if h == [] then 0
    else
      var last := h[|h| - 1];
      if IsStrike(last) || last.AdoptedUpstream? then 0
      else Streak(h[..|h| - 1]) + (if IsSuccess(last) then 1 else 0)
  }
}
