// The ProxySelector class (v2proxy/selector.go). Methods are proved against the
// functions of SelectorState and against the step systems of Ledger and Search.

module Selector {
  import opened Pool
  import opened Health
  import opened SelectorState
  import Egress
  import Ledger
  import opened Populate
  import Search
  import Runs = SelectorRuns

  // ---- candidate order ----

  /** How far index i lies ahead of `start` on the ring of n. */
  function Offset(n: nat, start: nat, i: nat): nat
    requires i < n && start < n
  {
    if i >= start then i - start else i + n - start
  }

  function StartOf(n: nat, startIdx: int): (start: nat)
    requires n > 0
    ensures start < n
  {
    if startIdx < 0 then 0 else startIdx % n
  }

  /** Strictly increasing distance from the start: once around the ring, no index twice. */
  predicate Cyclic(n: nat, start: nat, order: seq<nat>)
    requires start < n
  {
    && (forall k | 0 <= k < |order| :: order[k] < n)
    && (forall j, k | 0 <= j < k < |order| :: Offset(n, start, order[j]) < Offset(n, start, order[k]))
  }

  method SwitchOrder(n: int, startIdx: int, oldIndex: int) returns (order: seq<nat>)
    ensures n <= 0 ==> order == []
    ensures n > 0 ==> Cyclic(n, StartOf(n, startIdx), order)
    ensures n > 0 ==> forall i: nat :: i in order <==> i < n && i != oldIndex
  {
    order := [];
    if n <= 0 {
      return;
    }
    var start := StartOf(n, startIdx);
    for k := 0 to n
      invariant Cyclic(n, start, order)
      invariant forall i | i in order :: Offset(n, start, i) < k
      invariant forall i: nat | i < n && i != oldIndex && Offset(n, start, i) < k :: i in order
      invariant forall i | i in order :: i != oldIndex
    {
      var i := if start + k < n then start + k else start + k - n;
      assert Offset(n, start, i) == k;
      assert forall j: nat | j < n && Offset(n, start, j) == k :: j == i;
      if i != oldIndex {
        order := order + [i];
      }
    }
  }

  // ---- switch outcomes ----

  /** What `SwitchTo` may have left behind, told from the state its swap found. */
  predicate SwitchedTo(start: State, mid: State, end: State, exclude: set<string>) {
    && ActiveKey(end).Some? && Restarted(mid, end, ActiveKey(end).value)
    && ActiveKey(end).value in Keys(start.configs) && ActiveKey(end).value in Keys(mid.configs)
    && ActiveKey(end).value !in exclude
    && (KeyDistinct(start.configs) && InRange(start) ==> ActiveKey(end).value != OldKey(start))
  }

  predicate SwitchFailed(start: State, mid: State, end: State) {
    || end == mid
    || (OldKey(start) != "" && Restarted(mid, end, OldKey(start)))
    || ChildGone(mid, end)
  }

  /** The candidates of one switch: every index but the old one whose key is not
      excluded, each once, in cyclic order from just after the old one. */
  predicate Candidates(s: State, exclude: set<string>, cands: seq<nat>)
    requires s.configs != []
  {
    && Cyclic(|s.configs|, StartOf(|s.configs|, s.activeIndex + 1), cands)
    && (forall i | i in cands :: i < |s.configs| && i != s.activeIndex && s.configs[i].Key() !in exclude)
    && (forall i | 0 <= i < |s.configs| && i != s.activeIndex && s.configs[i].Key() !in exclude :: i in cands)
  }

  /** Between two candidates of a populate pass: the selector is as it was found,
      unless a probe took its child away. */
  predicate BetweenProbes(found: State, s: State) {
    s == found || exists launched :: s == Runs.GivenUp(found, launched)
  }

  /** The state after adopting candidate i, as its probe found it. */
  function Populated(found: State, i: nat, w: ProbeWorld): State {
    Adopted(Started(found, i, w.spawn).0, i, w.result.latency, w.now)
  }

  /** A second candidate that is not kept changes nothing more than the first did ... */
  lemma StillBetween(found: State, s: State, t: State)
    requires Inv(found) && BetweenProbes(found, s) && BetweenProbes(s, t)
    ensures BetweenProbes(found, t)
  {
    if s != found && t != s {
      var p :| s == Runs.GivenUp(found, p);
      var q :| t == Runs.GivenUp(s, q);
      assert t == Runs.GivenUp(found, p || q);
    }
  }

  /** ... and one that is kept leaves no trace of those before it. */
  lemma PopulatedAnyway(found: State, s: State, i: nat, w: ProbeWorld)
    requires Inv(found) && BetweenProbes(found, s) && i < |found.configs| && w.spawn.Spawned?
    ensures Populated(s, i, w) == Populated(found, i, w)
    ensures Populated(found, i, w).handle == Some(w.spawn.pid)
    ensures Populated(found, i, w).live == map[w.spawn.pid := found.configs[i]]
  {
    if s != found {
      var p :| s == Runs.GivenUp(found, p);
      assert Stopped(s).live == Stopped(found).live == map[];
    }
  }

  lemma StoppedAgain(found: State, i: nat, spawn: Spawn)
    requires Inv(found) && i < |found.configs| && spawn.Spawned?
    ensures Stopped(Started(found, i, spawn).0) == Runs.GivenUp(found, true)
  {
    assert Stopped(found).live == map[];
  }

  /** What comes after candidates that were not kept, told from what was there before them. */
  lemma PopulateResumed(found: State, s: State, t: State, ok: bool, i: int, w: ProbeWorld)
    requires Inv(found) && BetweenProbes(found, s)
    requires ok ==> 0 <= i < |found.configs| && w.spawn.Spawned? && t == Populated(s, i, w)
    requires !ok ==> BetweenProbes(s, t)
    ensures if ok then t == Populated(found, i, w) else BetweenProbes(found, t)
  {
    if ok {
      PopulatedAnyway(found, s, i, w);
    } else {
      StillBetween(found, s, t);
    }
  }

  /** `won` is the outcome of one complete search: a candidate whose probe worked, or
      nothing, and then the budget ran out or every candidate failed its probe. */
  ghost predicate Searched(n: nat, workers: nat, search: seq<Search.Step>, won: Option<nat>)
    requires workers > 0
  {
    && Search.Runnable(Search.Start(n, workers), search)
    && var end := Search.After(Search.Start(n, workers), search);
       && end.returned
       && (won.Some? ==> won.value < n && won.value in end.worked)
       && (won.None? ==> end.expired || forall p: nat :: p in end.failed <==> p < n)
  }

  method SearchAmong(n: nat, workers: nat) returns (winner: Option<Search.Win>, ghost search: seq<Search.Step>)
    requires n > 0 && workers > 0
    ensures Searched(n, workers, search, if winner.Some? then Some(winner.value.p) else None)
    ensures winner.Some? ==> winner.value.p < n
  {
    winner, search := Search.SearchCandidates(n, workers);
    Search.SearchIsSoundAndComplete(n, workers, search);
  }

  /** How one switch went: the state its swap found, the candidates in the order they
      were handed to the search, the search itself, and who won it and how fast. */
  datatype Attempt = Attempt(mid: State, cands: seq<nat>, search: seq<Search.Step>, won: Option<nat>, latency: nat)

  /** The key that won the search. */
  function WinKey(start: State, a: Attempt): Option<string> {
    if a.won.Some? && a.won.value < |a.cands| && a.cands[a.won.value] < |start.configs|
    then Some(start.configs[a.cands[a.won.value]].Key())
    else None
  }

  /** What a switch from `start` to `end` promises: snapshot, lock-free parallel search,
      swap. The state the swap finds is the initial one after whatever refreshes landed. */
  ghost predicate Switched(start: State, exclude: set<string>, workers: nat, w: SwapWorld, a: Attempt, ok: bool,
                           end: State)
    requires workers > 0
  {
    && (exists pools :: a.mid == AfterRefreshes(start, pools))
    && (if start.configs == [] then a.cands == [] else Candidates(start, exclude, a.cands))
    // The winner, if any, comes out of one complete parallel search over the candidates.
    && (if a.cands == [] then a.won.None? else Searched(|a.cands|, workers, a.search, a.won))
    && (a.won.Some? <==> WinKey(start, a).Some?)
    && (end, ok) == if a.won.None? then (a.mid, false)
                    else Swapped(a.mid, WinKey(start, a).value, a.latency, OldKey(start), w)
  }

  /** The winner is still in the pool when its turn comes. */
  predicate Reanchored(start: State, a: Attempt) {
    WinKey(start, a).Some? && WinKey(start, a).value in Keys(a.mid.configs)
  }

  predicate WinnerComesUp(w: SwapWorld) {
    w.start.Spawned? && w.bound && w.verify.working
  }

  predicate OldComesBack(start: State, w: SwapWorld, a: Attempt) {
    OldKey(start) != "" && OldKey(start) in Keys(a.mid.configs) && w.restore.Spawned?
  }

  /** No serving child is left. */
  predicate LeavesNoChild(start: State, w: SwapWorld, a: Attempt) {
    if Reanchored(start, a) then !WinnerComesUp(w) && !OldComesBack(start, w, a) else start.live == map[]
  }

  /** It succeeds exactly when the winner is still in the pool and comes up and verifies
      on the real port; serving is untouched until then; and it ends without a child
      exactly when neither the winner nor the old upstream could be brought up, or when
      there was none to begin with and none was started. */
  lemma SwitchOutcome(start: State, exclude: set<string>, workers: nat, w: SwapWorld, a: Attempt, ok: bool, end: State)
    requires workers > 0 && Inv(start) && Switched(start, exclude, workers, w, a, ok, end)
    ensures Inv(a.mid) && Inv(end)
    ensures ok <==> Reanchored(start, a) && WinnerComesUp(w)
    ensures ok ==> SwitchedTo(start, a.mid, end, exclude) && ActiveKey(end) == WinKey(start, a)
    ensures !ok ==> SwitchFailed(start, a.mid, end)
    ensures !Reanchored(start, a) ==> end == a.mid
    ensures end.live == map[] <==> LeavesNoChild(start, w, a)
    ensures ActiveKey(a.mid) == ActiveKey(start) || ActiveKey(a.mid) == None
  {
    var pools :| a.mid == AfterRefreshes(start, pools);
    RefreshesKeepKeyOrDropIt(start, pools);
    if a.won.Some? {
      WinnerIsEligible(start, exclude, a.cands, a.won.value);
      SwapOutcome(start, exclude, a.mid, WinKey(start, a).value, a.latency, w);
    }
  }

  lemma SwapOutcome(start: State, exclude: set<string>, mid: State, winKey: string, latency: nat, w: SwapWorld)
    requires Inv(mid) && winKey in Keys(start.configs) && winKey !in exclude
    requires KeyDistinct(start.configs) && InRange(start) ==> winKey != OldKey(start)
    ensures var (end, ok) := Swapped(mid, winKey, latency, OldKey(start), w);
            var back := OldKey(start) != "" && OldKey(start) in Keys(mid.configs) && w.restore.Spawned?;
            && Inv(end)
            && (ok <==> winKey in Keys(mid.configs) && WinnerComesUp(w))
            && (ok ==> SwitchedTo(start, mid, end, exclude) && ActiveKey(end) == Some(winKey))
            && (!ok ==> SwitchFailed(start, mid, end))
            && (winKey !in Keys(mid.configs) ==> end == mid)
            && (winKey in Keys(mid.configs) ==> (end.live == map[] <==> !WinnerComesUp(w) && !back))
  {
    SwappedOutcome(mid, winKey, latency, OldKey(start), w);
    SwappedInv(mid, winKey, latency, OldKey(start), w);
    var end := Swapped(mid, winKey, latency, OldKey(start), w).0;
    assert end.handle.Some? && Restarted(mid, end, winKey) ==> end.handle.value in end.live;
    assert end.handle.Some? && Restarted(mid, end, OldKey(start)) ==> end.handle.value in end.live;
  }

  class ProxySelector {
    const socksPort: int
    const httpPort: int
    var configs: seq<ProxyConfig>
    var activeIndex: int
    var failCount: nat
    var okStreak: nat
    var xrayCmd: Option<nat>
    var live: map<nat, ProxyConfig>
    var lastLatency: nat
    var lastProbe: Option<nat>
    var lastCheck: Option<nat>
    var activeSince: Option<nat>
    var servingUnproven: Option<nat>

    function Abs(): State
      reads this
    {
      State(configs, activeIndex, failCount, okStreak, xrayCmd, live, lastLatency, lastProbe, lastCheck, activeSince,
            servingUnproven)
    }

    constructor (socksPort: int, httpPort: int)
      ensures this.socksPort == socksPort && this.httpPort == httpPort && Abs() == NewSelector() && Inv(Abs())
    {
      this.socksPort, this.httpPort := socksPort, httpPort;
      configs, activeIndex, failCount, okStreak := [], -1, 0, 0;
      xrayCmd, live := None, map[];
      lastLatency, lastProbe, lastCheck, activeSince, servingUnproven := 0, None, None, None, None;
    }

    method UpdateConfigs(pool: seq<ProxyConfig>)
      modifies this
      ensures Abs() == Refreshed(old(Abs()), pool)
    {
      var activeKey := "";
      if 0 <= activeIndex < |configs| {
        activeKey := configs[activeIndex].Key();
      }
      configs := pool;
      activeIndex := -1;
      if activeKey != "" {
        activeIndex := FindKey(activeKey);
      }
    }

    /** slices.IndexFunc over the pool. */
    method FindKey(key: string) returns (i: int)
      ensures i == IndexOfKey(configs, key)
    {
      i := 0;
      while i < |configs|
        invariant 0 <= i <= |configs|
        invariant forall j | 0 <= j < i :: configs[j].Key() != key
      {
        if configs[i].Key() == key {
          return;
        }
        i := i + 1;
      }
      return -1;
    }

    method RetainActive(cfg: ProxyConfig)
      modifies this
      ensures Abs() == Retained(old(Abs()), cfg)
    {
      var i := FindKey(cfg.Key());
      if i >= 0 {
        activeIndex := i;
        return;
      }
      configs := [cfg] + configs;
      activeIndex := 0;
    }

    method StopXray()
      modifies this
      ensures Abs() == Stopped(old(Abs()))
    {
      if xrayCmd.Some? {
        live := live - {xrayCmd.value};
      }
      xrayCmd := None;
    }

    method StartXray(index: int, spawn: Spawn) returns (ok: bool)
      modifies this
      ensures (Abs(), ok) == Started(old(Abs()), index, spawn)
    {
      if index < 0 || index >= |configs| {
        return false;
      }
      if spawn.RenderFails? {
        return false;
      }
      // Never orphan a previous child.
      if xrayCmd.Some? {
        live := live - {xrayCmd.value};
        xrayCmd := None;
      }
      if spawn.LaunchFails? {
        return false;
      }
      xrayCmd := Some(spawn.pid);
      live := live[spawn.pid := configs[index]];
      servingUnproven := None;
      return true;
    }

    method TryRestoreLocked(oldKey: string, spawn: Spawn, now: nat)
      modifies this
      ensures Abs() == Restored(old(Abs()), oldKey, spawn, now)
    {
      if oldKey == "" {
        return;
      }
      var i := FindKey(oldKey);
      if i >= 0 {
        var ok := StartXray(i, spawn);
        if ok {
          activeIndex := i;
          failCount := 0;
          okStreak := 0;
          activeSince := Some(now);
        }
      }
    }

    /** A copy of the active config, if there is one. */
    method Active() returns (c: Option<ProxyConfig>)
      ensures c == ActiveConfig(Abs())
    {
      if activeIndex < 0 || activeIndex >= |configs| {
        return None;
      }
      return Some(configs[activeIndex]);
    }

    /** Pool refreshes that land while the lock is free: callers know no more than this. */
    method Interfere() returns (ghost pools: seq<seq<ProxyConfig>>)
      modifies this
      ensures Abs() == AfterRefreshes(old(Abs()), pools)
    {
      pools := [];
    }

    /** Stop the winner's child and bring the old upstream back. */
    method Abandon(oldKey: string, restore: Spawn, now: nat)
      modifies this
      ensures Abs() == Restored(Stopped(old(Abs())), oldKey, restore, now)
    {
      StopXray();
      TryRestoreLocked(oldKey, restore, now);
    }

    /** Put the winner on the real port in place of the old child; whatever goes wrong
        on the way, bring the old upstream back. */
    method BringUp(cur: nat, oldKey: string, w: SwapWorld) returns (up: bool)
      modifies this
      ensures var (t, started) := Started(Stopped(old(Abs())), cur, w.start);
              && (up <==> started && w.bound && w.verify.working)
              && Abs() == if up then t else Restored(if started then Stopped(t) else t, oldKey, w.restore, w.now)
    {
      StopXray();
      var started := StartXray(cur, w.start);
      if !started {
        TryRestoreLocked(oldKey, w.restore, w.now);
        return false;
      }
      if !w.bound {
        Abandon(oldKey, w.restore, w.now);
        return false;
      }
      if !w.verify.working {
        Abandon(oldKey, w.restore, w.now);
        return false;
      }
      return true;
    }

    /** The swap half of a switch, under the lock. */
    method Swap(winKey: string, winLat: nat, oldKey: string, w: SwapWorld) returns (ok: bool)
      modifies this
      ensures (Abs(), ok) == Swapped(old(Abs()), winKey, winLat, oldKey, w)
    {
      var cur := FindKey(winKey);
      if cur < 0 {
        return false;
      }
      ok := BringUp(cur, oldKey, w);
      if ok {
        Adopt(cur, winLat, w.now);
      }
    }

    /** The books of a fresh upstream. */
    method Adopt(i: nat, latency: nat, now: nat)
      modifies this
      ensures Abs() == Adopted(old(Abs()), i, latency, now)
    {
      activeIndex := i;
      lastLatency := latency;
      lastProbe := Some(now);
      failCount := 0;
      okStreak := 0;
      activeSince := Some(now);
    }

    /** The snapshot half of a switch, under the lock: what to try, in which order. */
    method PlanSwitch(exclude: set<string>) returns (cands: seq<nat>, oldKey: string)
      requires Inv(Abs())
      ensures oldKey == OldKey(Abs())
      ensures if configs == [] then cands == [] else Candidates(Abs(), exclude, cands)
    {
      cands, oldKey := [], "";
      if |configs| == 0 {
        return;
      }
      var startIdx := activeIndex + 1;
      if startIdx >= |configs| {
        startIdx := 0;
      }
      if 0 <= activeIndex < |configs| {
        oldKey := configs[activeIndex].Key();
      }
      var order := SwitchOrder(|configs|, startIdx, activeIndex);
      cands := NotExcluded(configs, order, startIdx, exclude);
      SameStart(|configs|, activeIndex);
    }

    method SwitchToNextExcluding(exclude: set<string>, workers: nat, w: SwapWorld)
      returns (ok: bool, ghost a: Attempt)
      requires Inv(Abs()) && workers > 0
      modifies this
      ensures Switched(old(Abs()), exclude, workers, w, a, ok, Abs())
      ensures Inv(Abs())
    {
      ghost var start := Abs();
      var snapshot := configs;
      var cands, oldKey := PlanSwitch(exclude);
      a := Attempt(start, cands, [], None, 0);
      assert start == AfterRefreshes(start, []);
      if |cands| == 0 {
        return false, a;
      }
      ghost var pools := Interfere();
      RefreshesKeepKeyOrDropIt(start, pools);
      a := a.(mid := Abs());
      ghost var search;
      var winner;
      winner, search := SearchAmong(|cands|, workers);
      a := a.(search := search);
      if winner.None? {
        return false, a;
      }
      a := a.(won := Some(winner.value.p), latency := winner.value.lat);
      WinnerIsEligible(start, exclude, cands, winner.value.p);
      var winKey := snapshot[cands[winner.value.p]].Key();
      SwappedInv(a.mid, winKey, winner.value.lat, oldKey, w);
      ok := Swap(winKey, winner.value.lat, oldKey, w);
    }

    /** Client bytes within the grace wave the check through; otherwise one probe. */
    method HealthCheck(notes: Egress.EgressNotes, result: HealthResult, now: nat) returns (ok: bool)
      modifies this
      ensures var served := Egress.Active(notes.lastOK, [httpPort, socksPort], Egress.EGRESS_GRACE, now);
              (Abs(), ok) == HealthChecked(old(Abs()), if served then Traffic else Probe(result), now)
    {
      if activeIndex < 0 || activeIndex >= |configs| {
        return false;
      }
      var serving := notes.EgressActive([httpPort, socksPort], Egress.EGRESS_GRACE, now);
      if serving {
        lastCheck := Some(now);
        failCount := 0;
        okStreak := okStreak + 1;
        return true;
      }
      lastCheck := Some(now);
      lastLatency := result.latency;
      lastProbe := lastCheck;
      if result.working {
        failCount := 0;
        okStreak := okStreak + 1;
        if activeSince.None? {
          activeSince := Some(now);
        }
        return true;
      }
      if ProbeInconclusive(result) {
        return true;
      }
      failCount := failCount + 1;
      okStreak := 0;
      return failCount < HEALTH_FAIL_THRESHOLD;
    }

    /** One socket scan: busy, or free to rotate. */
    method ServingClients(n: nat, proven: bool, now: nat) returns (busy: bool)
      modifies this`servingUnproven
      ensures (servingUnproven, busy) == Egress.Guarded(old(servingUnproven), n, proven, now)
    {
      if proven {
        servingUnproven := None;
        return n > 0;
      }
      if servingUnproven.None? {
        servingUnproven := Some(now);
        return true;
      }
      return now - servingUnproven.value < Egress.SERVING_SOCKET_UNPROVEN_GRACE;
    }

    // ---- populate ----

    /** One pass over the pool, against a ledger that the other workers change at
        every turn. `fates` says what became of each candidate it came to, and is what
        its trail in the ledger says. */
    method TryConfigs(exclude: set<string>, shared: ProbeShared, hasDeadline: bool, respectBad: bool,
                      worlds: seq<ProbeWorld>, ghost me: nat)
      returns (skipped: nat, ok: bool, ghost fates: seq<Fate>)
      requires |worlds| == |configs|
      requires Inv(Abs()) && shared.Valid() && me < |shared.Now().workers|
      requires shared.Now().workers[me] ==
               Ledger.Worker(KeyList(configs),
                             Ledger.Scanning(Ledger.Cursor(if respectBad then 1 else 2, 0, exclude, 0)))
      modifies this, shared
      ensures Inv(Abs()) && shared.Valid() && configs == old(configs)
      ensures me < |shared.Now().workers| && shared.Now().workers[me].order == KeyList(configs)
      ensures ok ==>
                && ActiveKey(Abs()).Some? && Abs() == Populated(old(Abs()), activeIndex, worlds[activeIndex])
                && worlds[activeIndex].spawn.Spawned?
                && shared.Now().workers[me].phase == Ledger.Won(configs[activeIndex].Key())
                && configs[activeIndex].Key() in shared.claimed && configs[activeIndex].Key() !in exclude
      ensures !ok ==>
                && BetweenProbes(old(Abs()), Abs())
                && shared.Now().workers[me].phase ==
                   Ledger.Scanning(Ledger.Cursor(if respectBad then 1 else 2, |fates|, exclude, skipped))
      // It goes on to the first candidate that it claimed and that was fit, or to the end.
      ensures |fates| == if ok then activeIndex + 1 else PassEnds(worlds, hasDeadline)
      ensures old(shared.bad) <= shared.bad
      ensures Progress(configs, exclude, respectBad, worlds, me, fates, shared.bad, skipped,
                       old(Own(shared.run, me)), Own(shared.run, me), ok)
    {
      skipped, ok, fates := 0, false, [];
      ghost var pass, end := if respectBad then 1 else 2, PassEnds(worlds, hasDeadline);
      var i := 0;
      assert old(Own(shared.run, me)) + [] == old(Own(shared.run, me));
      while i < |configs|
        invariant i == |fates| <= end && !ok
        invariant Inv(Abs()) && BetweenProbes(old(Abs()), Abs())
        invariant shared.Valid() && me < |shared.Now().workers|
        invariant shared.Now().workers[me] ==
                  Ledger.Worker(KeyList(configs), Ledger.Scanning(Ledger.Cursor(pass, i, exclude, skipped)))
        invariant old(shared.bad) <= shared.bad && (!respectBad ==> skipped == 0)
        invariant Progress(configs, exclude, respectBad, worlds, me, fates, shared.bad, skipped,
                           old(Own(shared.run, me)), Own(shared.run, me), false)
      {
        var late;
        GoesOnUnlessLate(worlds, hasDeadline, i);
        late, ok, skipped, fates := TakeTurn(i, exclude, shared, hasDeadline, respectBad, skipped, worlds, fates,
                                             old(Abs()), old(Own(shared.run, me)), me);
        if late || ok {
          return;
        }
        i := i + 1;
      }
    }

    /** One round of the loop, noted in the pass so far. */
    method TakeTurn(i: nat, exclude: set<string>, shared: ProbeShared, hasDeadline: bool, respectBad: bool, before: nat,
                    worlds: seq<ProbeWorld>, ghost fates: seq<Fate>, ghost start: State, ghost trail: seq<Ledger.Step>,
                    ghost me: nat)
      returns (late: bool, won: bool, skipped: nat, ghost longer: seq<Fate>)
      requires i == |fates| < |configs| == |worlds| && Inv(Abs()) && Inv(start) && BetweenProbes(start, Abs())
      requires shared.Valid() && me < |shared.Now().workers| && (!respectBad ==> before == 0)
      requires shared.Now().workers[me] ==
               Ledger.Worker(KeyList(configs),
                             Ledger.Scanning(Ledger.Cursor(if respectBad then 1 else 2, i, exclude, before)))
      requires Progress(configs, exclude, respectBad, worlds, me, fates, shared.bad, before, trail,
                        Own(shared.run, me), false)
      modifies this, shared
      ensures late <==> hasDeadline && worlds[i].late
      ensures configs == old(configs) && shared.Valid() && Inv(Abs())
      ensures me < |shared.Now().workers| && shared.Now().workers[me].order == KeyList(configs)
      ensures won ==>
                && activeIndex == i && worlds[i].spawn.Spawned? && Abs() == Populated(start, i, worlds[i])
                && configs[i].Key() !in exclude
                && shared.Now().workers[me].phase == Ledger.Won(configs[i].Key()) && configs[i].Key() in shared.claimed
      ensures !won ==>
                && BetweenProbes(start, Abs())
                && shared.Now().workers[me].phase ==
                   Ledger.Scanning(Ledger.Cursor(if respectBad then 1 else 2, |longer|, exclude, skipped))
      ensures old(shared.bad) <= shared.bad && (!respectBad ==> skipped == 0) && (late ==> !won)
      ensures |longer| == if late then i else i + 1
      ensures Progress(configs, exclude, respectBad, worlds, me, longer, shared.bad, skipped, trail,
                       Own(shared.run, me), won)
    {
      ghost var fate;
      late, won, skipped, fate := NextTurn(i, exclude, shared, hasDeadline, respectBad, before, worlds[i], start, me);
      longer := fates;
      if late {
        MarksGrow(configs, exclude, respectBad, worlds, fates, old(shared.bad), shared.bad);
      } else {
        Progresses(configs, exclude, respectBad, worlds, me, fates, old(shared.bad), before, trail,
                   old(Own(shared.run, me)), fate, shared.bad, skipped, Own(shared.run, me));
        longer := fates + [fate];
      }
    }

    /** The deadline check, and then the turn. Other workers act before both. */
    method NextTurn(i: nat, exclude: set<string>, shared: ProbeShared, hasDeadline: bool, respectBad: bool, before: nat,
                    world: ProbeWorld, ghost start: State, ghost me: nat)
      returns (late: bool, won: bool, skipped: nat, ghost fate: Fate)
      requires i < |configs| && Inv(Abs()) && Inv(start) && BetweenProbes(start, Abs())
      requires shared.Valid() && me < |shared.Now().workers| && (!respectBad ==> before == 0)
      requires shared.Now().workers[me] ==
               Ledger.Worker(KeyList(configs),
                             Ledger.Scanning(Ledger.Cursor(if respectBad then 1 else 2, i, exclude, before)))
      modifies this, shared
      ensures late <==> hasDeadline && world.late
      ensures configs == old(configs) && shared.Valid() && Inv(Abs())
      ensures me < |shared.Now().workers| && shared.Now().workers[me].order == KeyList(configs)
      ensures won ==>
                && world.spawn.Spawned? && Abs() == Populated(start, i, world)
                && shared.Now().workers[me].phase == Ledger.Won(configs[i].Key()) && configs[i].Key() in shared.claimed
      ensures !won ==>
                && BetweenProbes(start, Abs())
                && shared.Now().workers[me].phase ==
                   Ledger.Scanning(Ledger.Cursor(if respectBad then 1 else 2, if late then i else i + 1,
                                                 exclude, skipped))
      ensures old(shared.bad) <= shared.bad
      ensures late ==> !won && skipped == before && Own(shared.run, me) == old(Own(shared.run, me))
      ensures !late ==>
                && (won <==> Adopts(fate, world))
                && TurnedOut(configs[i].Key(), exclude, respectBad, world, fate, shared.bad)
                && skipped == (if respectBad && Counts(fate, world) then before + 1 else before)
                && Own(shared.run, me) == old(Own(shared.run, me)) + Steps(fate, Found(world), me)
    {
      shared.Yield(me);
      late, won, skipped, fate := hasDeadline && world.late, false, before, Lost;
      if !late {
        won, skipped, fate := TryCandidate(i, exclude, shared, respectBad, before, world, me);
        PopulateResumed(start, old(Abs()), Abs(), won, i, world);
      }
    }

    /** One turn of the loop: skip, lose the race for the claim, or probe. */
    method TryCandidate(i: nat, exclude: set<string>, shared: ProbeShared, respectBad: bool, before: nat,
                        world: ProbeWorld, ghost me: nat)
      returns (won: bool, skipped: nat, ghost fate: Fate)
      requires i < |configs| && Inv(Abs())
      requires shared.Valid() && me < |shared.Now().workers| && (!respectBad ==> before == 0)
      requires shared.Now().workers[me] ==
               Ledger.Worker(KeyList(configs),
                             Ledger.Scanning(Ledger.Cursor(if respectBad then 1 else 2, i, exclude, before)))
      modifies this, shared
      ensures configs == old(configs) && shared.Valid() && Inv(Abs())
      ensures me < |shared.Now().workers| && shared.Now().workers[me].order == KeyList(configs)
      ensures won ==>
                && world.spawn.Spawned? && Abs() == Populated(old(Abs()), i, world)
                && shared.Now().workers[me].phase == Ledger.Won(configs[i].Key()) && configs[i].Key() in shared.claimed
      ensures !won ==>
                && BetweenProbes(old(Abs()), Abs())
                && shared.Now().workers[me].phase ==
                   Ledger.Scanning(Ledger.Cursor(if respectBad then 1 else 2, i + 1, exclude, skipped))
      ensures won <==> Adopts(fate, world)
      ensures old(shared.bad) <= shared.bad
      ensures TurnedOut(configs[i].Key(), exclude, respectBad, world, fate, shared.bad)
      ensures skipped == if respectBad && Counts(fate, world) then before + 1 else before
      ensures Own(shared.run, me) == old(Own(shared.run, me)) + Steps(fate, Found(world), me)
    {
      var held;
      held, skipped, fate := ClaimNext(configs[i].Key(), exclude, shared, respectBad, before, me);
      won := false;
      if held {
        ghost var claimed := Own(shared.run, me);
        won, skipped := ProbeClaimed(i, exclude, shared, respectBad, before, world, me);
        Regroup(old(Own(shared.run, me)), [Ledger.Check(me), Ledger.Claim(me)], Reported(Found(world), me));
      }
    }

    /** The ledger's half of a turn: the next key is passed over, or its claim is held. */
    method ClaimNext(key: string, exclude: set<string>, shared: ProbeShared, respectBad: bool, before: nat,
                     ghost me: nat)
      returns (held: bool, skipped: nat, ghost fate: Fate)
      requires shared.Valid() && Ledger.Ready(shared.Now(), me) && Ledger.KeyAt(shared.Now().workers[me]) == key
      requires var c := shared.Now().workers[me].phase.c;
               c == Ledger.Cursor(if respectBad then 1 else 2, c.i, exclude, before)
      modifies shared
      ensures shared.Valid() && me < |shared.Now().workers|
      ensures shared.Now().workers[me].order == old(shared.Now().workers[me].order)
      ensures held ==> shared.Now().workers[me].phase.Probing?
                       && shared.Now().workers[me].phase.c == old(shared.Now().workers[me].phase.c)
      ensures !held ==> shared.Now().workers[me].phase ==
                        Ledger.Scanning(Ledger.Next(old(shared.Now().workers[me].phase.c).(skipped := skipped)))
      // Excluded and bad keys are passed over; what is neither is lost only to a peer that holds it.
      ensures fate.Excluded? <==> key in exclude
      ensures fate.Bad? <==> key !in exclude && respectBad && key in old(shared.bad)
      ensures fate.Lost? ==> key in shared.claimed
      ensures fate.Probed? <==> held
      ensures skipped == if fate.Bad? then before + 1 else before
      ensures old(shared.bad) <= shared.bad
      ensures Own(shared.run, me) == old(Own(shared.run, me))
                + if held then [Ledger.Check(me), Ledger.Claim(me)] else Steps(fate, Silent, me)
    {
      held, skipped, fate := false, before, Excluded;
      if key in exclude {
        shared.Note(Ledger.SkipExcluded(me), me);
        return;
      }
      var isBad := false;
      if respectBad {
        isBad := shared.IsBad(key);
      }
      if isBad {
        shared.Note(Ledger.SkipBad(me), me);
        return false, before + 1, Bad;
      }
      held := CheckAndClaim(key, shared, me);
      fate := if held then Probed else Lost;
    }

    /** Looked at and found clean, then claimed: other workers may act in between. */
    method CheckAndClaim(key: string, shared: ProbeShared, ghost me: nat) returns (held: bool)
      requires shared.Valid() && Ledger.Enabled(shared.Now(), Ledger.Check(me))
               && Ledger.KeyAt(shared.Now().workers[me]) == key
      modifies shared
      ensures shared.Valid() && me < |shared.Now().workers|
      ensures shared.Now().workers[me].order == old(shared.Now().workers[me].order)
      ensures var c := old(shared.Now().workers[me].phase.c);
              if held then shared.Now().workers[me].phase.Probing? && shared.Now().workers[me].phase.c == c
              else shared.Now().workers[me].phase == Ledger.Scanning(Ledger.Next(c)) && key in shared.claimed
      ensures old(shared.bad) <= shared.bad
      ensures Own(shared.run, me) == old(Own(shared.run, me))
              + [Ledger.Check(me), if held then Ledger.Claim(me) else Ledger.LoseClaim(me)]
    {
      shared.Note(Ledger.Check(me), me);
      shared.Yield(me);
      held := shared.TryClaim(me, key);
      Regroup(old(Own(shared.run, me)), [Ledger.Check(me)], [if held then Ledger.Claim(me) else Ledger.LoseClaim(me)]);
    }

    /** The body of the loop once the claim is held: launch, wait for the bind,
        probe, and give the claim back unless the candidate is adopted. */
    method ProbeClaimed(i: nat, exclude: set<string>, shared: ProbeShared, respectBad: bool, before: nat,
                        world: ProbeWorld, ghost me: nat)
      returns (won: bool, skipped: nat)
      requires i < |configs| && Inv(Abs())
      requires shared.Valid() && me < |shared.Now().workers| && (!respectBad ==> before == 0)
      requires var wk := shared.Now().workers[me];
               wk.order == KeyList(configs) && wk.phase.Probing?
               && wk.phase.c == Ledger.Cursor(if respectBad then 1 else 2, i, exclude, before)
      modifies this, shared
      ensures configs == old(configs) && shared.Valid() && Inv(Abs())
      ensures me < |shared.Now().workers| && shared.Now().workers[me].order == KeyList(configs)
      ensures won ==>
                && world.spawn.Spawned? && Abs() == Populated(old(Abs()), i, world)
                && shared.Now().workers[me].phase == Ledger.Won(configs[i].Key()) && configs[i].Key() in shared.claimed
      ensures !won ==>
                && BetweenProbes(old(Abs()), Abs())
                && shared.Now().workers[me].phase ==
                   Ledger.Scanning(Ledger.Cursor(if respectBad then 1 else 2, i + 1, exclude, skipped))
      ensures won <==> Found(world) == Fit
      ensures skipped == if Found(world) == Silent && respectBad then before + 1 else before
      ensures old(shared.bad) <= shared.bad && (IsRejection(Found(world)) ==> configs[i].Key() in shared.bad)
      ensures Own(shared.run, me) == old(Own(shared.run, me)) + Reported(Found(world), me)
    {
      var verdict := Examine(i, world);
      if verdict == Fit {
        KeepCandidate(i, world, shared, me);
        return true, before;
      }
      won := false;
      skipped := HandBack(configs[i].Key(), verdict, shared, respectBad, before, me);
      if verdict != NoChild {
        StopXray();
        StoppedAgain(old(Abs()), i, world.spawn);
      }
    }

    /** Record what was learned of a candidate that is not kept, and give its claim back. */
    method HandBack(key: string, verdict: Finding, shared: ProbeShared, respectBad: bool, before: nat, ghost me: nat)
      returns (skipped: nat)
      requires verdict != Fit && shared.Valid() && Ledger.IsProbing(shared.Now(), me)
      requires var wk := shared.Now().workers[me];
               Ledger.KeyAt(wk) == key && wk.phase.c.pass == (if respectBad then 1 else 2)
               && wk.phase.c.skipped == before
      modifies shared
      ensures shared.Valid() && me < |shared.Now().workers|
      ensures skipped == if verdict == Silent && respectBad then before + 1 else before
      ensures var wk := old(shared.Now().workers[me]);
              shared.Now().workers[me] ==
              wk.(phase := Ledger.Scanning(Ledger.Cursor(wk.phase.c.pass, wk.phase.c.i + 1,
                                                         wk.phase.c.exclude, skipped)))
      ensures old(shared.bad) <= shared.bad && (IsRejection(verdict) ==> key in shared.bad)
      ensures Own(shared.run, me) == old(Own(shared.run, me)) + Reported(verdict, me)
    {
      skipped := before;
      ghost var c := shared.Now().workers[me].phase.c;
      if verdict == Silent || verdict == Throttled {
        if verdict == Silent && respectBad {
          skipped := skipped + 1;
        }
        LeaveUnproven(key, shared, me, verdict == Silent);
        assert shared.Now().workers[me].phase == Ledger.Scanning(c.(i := c.i + 1, skipped := skipped));
      } else {
        GiveBack(key, shared, me);
        assert shared.Now().workers[me].phase == Ledger.Scanning(c.(i := c.i + 1));
      }
    }

    /** Launch, wait for the bind, probe. Unless the launch failed the child is left running. */
    method Examine(i: nat, w: ProbeWorld) returns (verdict: Finding)
      requires i < |configs| && Inv(Abs())
      modifies this
      ensures configs == old(configs) && activeIndex == old(activeIndex)
      ensures verdict == Found(w)
      ensures verdict == NoChild ==> Inv(Abs()) && BetweenProbes(old(Abs()), Abs())
      ensures verdict != NoChild ==>
                && w.spawn.Spawned? && Abs() == Started(old(Abs()), i, w.spawn).0
                && xrayCmd.Some? && live == map[w.spawn.pid := configs[i]]
    {
      var launched := StartXray(i, w.spawn);
      if !launched {
        assert Abs() == old(Abs()) || Abs() == Runs.GivenUp(old(Abs()), false);
        return NoChild;
      }
      if !w.bound {
        return if w.exited then Exited else Silent;
      }
      verdict := match ClassifyProbe(w.result)
        case Adopt => Fit
        case Unproven => Throttled
        case Reject => Unfit;
    }

    /** The candidate is adopted and its claim kept. */
    method KeepCandidate(i: nat, w: ProbeWorld, shared: ProbeShared, ghost me: nat)
      requires i < |configs| && xrayCmd.Some? && live == map[xrayCmd.value := configs[i]]
      requires shared.Valid() && Ledger.IsProbing(shared.Now(), me)
      requires shared.Now().workers[me].order == KeyList(configs) && shared.Now().workers[me].phase.c.i == i
      modifies this, shared
      ensures Inv(Abs()) && Abs() == Adopted(old(Abs()), i, w.result.latency, w.now)
      ensures shared.Valid() && me < |shared.Now().workers|
      ensures shared.Now().workers[me] == Ledger.Worker(KeyList(configs), Ledger.Won(configs[i].Key()))
      ensures configs[i].Key() in shared.claimed && shared.bad == old(shared.bad)
      ensures Own(shared.run, me) == old(Own(shared.run, me)) + [Ledger.Adopt(me)]
    {
      Adopt(i, w.result.latency, w.now);
      shared.Adopt(me, KeyList(configs), i);
    }

    /** markBad, then unclaim; the other workers may act in between and after. */
    method GiveBack(key: string, shared: ProbeShared, ghost me: nat)
      requires shared.Valid() && Ledger.IsProbing(shared.Now(), me) && Ledger.KeyAt(shared.Now().workers[me]) == key
      modifies shared
      ensures shared.Valid() && me < |shared.Now().workers|
      ensures shared.Now().workers[me] ==
              old(shared.Now().workers[me]).(
                phase := Ledger.Scanning(Ledger.Next(old(shared.Now().workers[me].phase.c))))
      ensures old(shared.bad) <= shared.bad && key in shared.bad
      ensures Own(shared.run, me) == old(Own(shared.run, me))
              + [Ledger.Reject(me), Ledger.Release(me), Ledger.StopChild(me)]
    {
      shared.MarkBad(me, key);
      Unclaim(key, shared, me);
      Regroup(old(Own(shared.run, me)), [Ledger.Reject(me)], [Ledger.Release(me), Ledger.StopChild(me)]);
    }

    /** unclaim without a bad mark: the candidate stays claimable. */
    method LeaveUnproven(key: string, shared: ProbeShared, ghost me: nat, ghost silent: bool)
      requires shared.Valid() && Ledger.IsProbing(shared.Now(), me) && Ledger.KeyAt(shared.Now().workers[me]) == key
      modifies shared
      ensures shared.Valid() && me < |shared.Now().workers|
      ensures var wk := old(shared.Now().workers[me]);
              shared.Now().workers[me] ==
              wk.(phase := Ledger.Scanning(Ledger.Next(if silent then Ledger.Counted(wk.phase.c) else wk.phase.c)))
      ensures old(shared.bad) <= shared.bad
      ensures Own(shared.run, me) == old(Own(shared.run, me))
                + [if silent then Ledger.Silent(me) else Ledger.Throttled(me), Ledger.Release(me), Ledger.StopChild(me)]
    {
      shared.Unproven(me, silent);
      Unclaim(key, shared, me);
      Regroup(old(Own(shared.run, me)), [if silent then Ledger.Silent(me) else Ledger.Throttled(me)],
              [Ledger.Release(me), Ledger.StopChild(me)]);
    }

    method Unclaim(key: string, shared: ProbeShared, ghost me: nat)
      requires shared.Valid() && me < |shared.Now().workers| && shared.Now().workers[me].phase.Releasing?
      requires shared.Now().workers[me].phase.c.i < |shared.Now().workers[me].order|
      requires Ledger.KeyAt(shared.Now().workers[me]) == key
      modifies shared
      ensures shared.Valid() && me < |shared.Now().workers|
      ensures shared.Now().workers[me] ==
              old(shared.Now().workers[me]).(
                phase := Ledger.Scanning(Ledger.Next(old(shared.Now().workers[me].phase.c))))
      ensures old(shared.bad) <= shared.bad
      ensures Own(shared.run, me) == old(Own(shared.run, me)) + [Ledger.Release(me), Ledger.StopChild(me)]
    {
      shared.Yield(me);
      shared.Unclaim(me, key);
      shared.Yield(me);
      shared.Note(Ledger.StopChild(me), me);
      Regroup(old(Own(shared.run, me)), [Ledger.Release(me)], [Ledger.StopChild(me)]);
    }

    /** One populate attempt: a pass that respects bad marks, and a second one only
        if the first counted a rejected or silent candidate. */
    method StartShared(exclude: set<string>, shared: ProbeShared, hasDeadline: bool,
                       first: seq<ProbeWorld>, retry: seq<ProbeWorld>, ghost me: nat)
      returns (ok: bool, ghost fates: seq<Fate>, ghost again: Option<seq<Fate>>)
      requires |first| == |retry| == |configs|
      requires Inv(Abs()) && shared.Valid() && me < |shared.Now().workers|
      requires shared.Now().workers[me] ==
               Ledger.Worker(KeyList(configs), Ledger.Scanning(Ledger.Cursor(1, 0, exclude, 0)))
      modifies this, shared
      ensures Inv(Abs()) && shared.Valid() && configs == old(configs) && me < |shared.Now().workers|
      ensures ok ==>
                && ActiveKey(Abs()).Some?
                && (if again.Some? then retry else first)[activeIndex].spawn.Spawned?
                && Abs() == Populated(old(Abs()), activeIndex, (if again.Some? then retry else first)[activeIndex])
                && shared.Now().workers[me].phase == Ledger.Won(configs[activeIndex].Key())
                && configs[activeIndex].Key() !in exclude && configs[activeIndex].Key() !in shared.Now().used
      ensures !ok ==>
                && shared.Now().workers[me].phase.GaveUp? && BetweenProbes(old(Abs()), Abs())
      // The second pass follows exactly when the first adopted nobody, and found somebody
      // bad when it looked or silent when it probed.
      ensures |fates| <= |first| && PassOver(configs, exclude, true, first, fates, shared.bad)
      ensures again.Some? <==> Barren(fates, first) && SomeCount(fates, first)
      ensures again.Some? ==>
                |again.value| <= |retry| && PassOver(configs, exclude, false, retry, again.value, shared.bad)
      ensures ok <==> !Barren(fates, first) || (again.Some? && !Barren(again.value, retry))
      ensures Own(shared.run, me) == old(Own(shared.run, me)) + StartTrail(fates, first, again, retry, ok, me)
    {
      again := None;
      if |configs| == 0 {
        shared.Note(Ledger.GiveUp(me), me);
        ok, fates := false, [];
        return;
      }
      var skipped;
      skipped, ok, fates := TryConfigs(exclude, shared, hasDeadline, true, first, me);
      SkippedIff(fates, first);
      if !ok && skipped > 0 {
        ghost var found, bad, second := Abs(), shared.bad, [];
        ok, second := Retry(exclude, shared, hasDeadline, retry, me, skipped);
        again := Some(second);
        PopulateResumed(old(Abs()), found, Abs(), ok, activeIndex, retry[if ok then activeIndex else 0]);
        MarksGrow(configs, exclude, true, first, fates, bad, shared.bad);
        Regroup(old(Own(shared.run, me)), Trail(fates, first, me), RetryTrail(second, retry, ok, me));
      } else if !ok {
        shared.Note(Ledger.GiveUp(me), me);
        Regroup(old(Own(shared.run, me)), Trail(fates, first, me), [Ledger.GiveUp(me)]);
      }
      if ok {
        shared.WonKeyIsUnused(me);
      }
    }

    /** The second pass, which retries what was marked bad. */
    method Retry(exclude: set<string>, shared: ProbeShared, hasDeadline: bool, retry: seq<ProbeWorld>, ghost me: nat,
                 ghost counted: nat)
      returns (ok: bool, ghost fates: seq<Fate>)
      requires |retry| == |configs| && counted > 0
      requires Inv(Abs()) && shared.Valid() && me < |shared.Now().workers|
      requires shared.Now().workers[me].order == KeyList(configs) && shared.Now().workers[me].phase.Scanning?
      requires var c := shared.Now().workers[me].phase.c; c.pass == 1 && c.exclude == exclude && c.skipped == counted
      modifies this, shared
      ensures Inv(Abs()) && shared.Valid() && configs == old(configs) && me < |shared.Now().workers|
      ensures ok ==>
                && ActiveKey(Abs()).Some? && Abs() == Populated(old(Abs()), activeIndex, retry[activeIndex])
                && retry[activeIndex].spawn.Spawned?
                && shared.Now().workers[me].phase == Ledger.Won(configs[activeIndex].Key())
                && configs[activeIndex].Key() !in exclude
      ensures !ok ==> shared.Now().workers[me].phase.GaveUp? && BetweenProbes(old(Abs()), Abs())
      ensures |fates| <= |retry| && PassOver(configs, exclude, false, retry, fates, shared.bad)
              && old(shared.bad) <= shared.bad
      ensures ok <==> !Barren(fates, retry)
      ensures Own(shared.run, me) == old(Own(shared.run, me)) + RetryTrail(fates, retry, ok, me)
    {
      var skipped;
      shared.Note(Ledger.Retry(me), me);
      skipped, ok, fates := TryConfigs(exclude, shared, hasDeadline, false, retry, me);
      Regroup(old(Own(shared.run, me)), [Ledger.Retry(me)], Trail(fates, retry, me));
      if !ok {
        shared.Note(Ledger.GiveUp(me), me);
        Regroup(old(Own(shared.run, me)), [Ledger.Retry(me)] + Trail(fates, retry, me), [Ledger.GiveUp(me)]);
      }
    }
  }

  /** The switch's filter over the cyclic order. */
  method NotExcluded(snapshot: seq<ProxyConfig>, order: seq<nat>, startIdx: int, exclude: set<string>)
    returns (cands: seq<nat>)
    requires snapshot != [] && Cyclic(|snapshot|, StartOf(|snapshot|, startIdx), order)
    ensures Cyclic(|snapshot|, StartOf(|snapshot|, startIdx), cands)
    ensures forall i :: i in cands <==> i in order && i < |snapshot| && snapshot[i].Key() !in exclude
  {
    cands := [];
    ghost var start := StartOf(|snapshot|, startIdx);
    for k := 0 to |order|
      invariant Cyclic(|snapshot|, start, cands)
      invariant forall i :: i in cands <==> i in order[..k] && i < |snapshot| && snapshot[i].Key() !in exclude
    {
      assert order[..k + 1] == order[..k] + [order[k]];
      if snapshot[order[k]].Key() !in exclude {
        forall j | 0 <= j < |cands|
          ensures Offset(|snapshot|, start, cands[j]) < Offset(|snapshot|, start, order[k])
        {
          assert cands[j] in order[..k];
          var m :| 0 <= m < k && order[m] == cands[j];
        }
        cands := cands + [order[k]];
      }
    }
    assert order[..|order|] == order;
  }

  /** Resetting a start index past the end to 0 changes nothing. */
  lemma SameStart(n: nat, active: int)
    requires n > 0 && -1 <= active < n
    ensures StartOf(n, if active + 1 >= n then 0 else active + 1) == StartOf(n, active + 1)
  {
  }

  lemma WinnerIsEligible(s: State, exclude: set<string>, cands: seq<nat>, p: nat)
    requires s.configs != [] && Candidates(s, exclude, cands) && p < |cands|
    ensures cands[p] < |s.configs|
    ensures var key := s.configs[cands[p]].Key();
            && key in Keys(s.configs) && key !in exclude
            && (KeyDistinct(s.configs) && InRange(s) ==> key != OldKey(s))
  {
    assert cands[p] in cands;
    assert s.configs[cands[p]] in s.configs;
  }
}
