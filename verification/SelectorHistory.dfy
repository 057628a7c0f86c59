// The selector object and the step system of SelectorRuns: whatever is called on one
// ProxySelector, in whatever order, comes to a run of the system.

module SelectorHistory {
  import opened Pool
  import opened Health
  import opened SelectorState
  import opened Populate
  import opened Selector
  import Runs = SelectorRuns

  // ---- switches are runs ----

  /** The candidate list holds exactly the positions that a commit step may name. */
  lemma CandidatesAreCommittable(s: State, exclude: set<string>, cands: seq<nat>, i: nat)
    requires s.configs != [] && Candidates(s, exclude, cands)
    ensures i in cands <==> Runs.IsCandidate(Runs.Snapshot(s, exclude), i)
  {
  }

  /** What was captured is still known, if perhaps no longer clean. */
  predicate Remembers(captured: map<nat, Runs.Captured>, later: map<nat, Runs.Captured>) {
    forall id | id in captured :: id in later && later[id].cfg == captured[id].cfg
  }

  /** A run leads from one system to a state of the selector, with no switch left open. */
  predicate Leads(y: Runs.System, run: seq<Runs.Step>, end: State) {
    && Runs.Runnable(y, run)
    && var z := Runs.After(y, run);
       z.sel == end && z.pending == y.pending && Remembers(y.captured, z.captured)
  }

  /** Every switch of the object is a run of the step system: its snapshot, the
      refreshes that landed, its commit. */
  lemma SwitchIsARun(y: Runs.System, exclude: set<string>, workers: nat, w: SwapWorld, a: Attempt, ok: bool, end: State)
    returns (run: seq<Runs.Step>)
    requires workers > 0 && Switched(y.sel, exclude, workers, w, a, ok, end) && y.pending == map[]
    ensures Leads(y, run, end)
  {
    var pools :| a.mid == AfterRefreshes(y.sel, pools);
    if a.won.None? {
      run := RefreshesAreARun(y, pools);
    } else {
      var begin := Runs.BeginSwitch(0, exclude);
      var winner := a.cands[a.won.value];
      CandidatesAreCommittable(y.sel, exclude, a.cands, winner);
      var y1 := Runs.Apply(y, begin);
      var refreshes := RefreshesAreARun(y1, pools);
      var commit := Runs.CommitSwitch(0, winner, a.latency, w);
      assert Runs.After(y1, refreshes).pending[0] == Runs.Snapshot(y.sel, exclude);
      Runs.Append(y1, refreshes, commit);
      run := [begin] + (refreshes + [commit]);
      Runs.Prepend(y, begin, refreshes + [commit]);
    }
  }

  lemma {:induction false} RefreshesAreARun(y: Runs.System, pools: seq<seq<ProxyConfig>>) returns (run: seq<Runs.Step>)
    ensures Runs.Runnable(y, run) && Runs.After(y, run) == y.(sel := AfterRefreshes(y.sel, pools))
    decreases |pools|
  {
    run := [];
    if pools != [] {
      var refresh := Runs.Refresh(pools[0]);
      var rest := RefreshesAreARun(Runs.Apply(y, refresh), pools[1..]);
      run := [refresh] + rest;
      Runs.Prepend(y, refresh, rest);
    }
  }

  // ---- and so is everything else ----

  /** One call on the object, with what the world had to say. A retain names the moment
      at which the config that it puts back was the active one. */
  datatype Call =
    | UpdateConfigs(pool: seq<ProxyConfig>)
    | RetainActive(when: nat)
    | SwitchToNext(exclude: set<string>, workers: nat, w: SwapWorld, a: Attempt, ok: bool)
    | HealthCheck(e: Evidence, now: nat)
    | Populate(ok: bool, i: nat, world: ProbeWorld)
    | ChildDies
    | StopXray

  /** Call k went as the methods of ProxySelector promise. */
  ghost predicate Went(calls: seq<Call>, states: seq<State>, k: nat)
    requires k < |calls| < |states|
  {
    var s, t := states[k], states[k + 1];
    match calls[k]
    case UpdateConfigs(pool) => t == Refreshed(s, pool)
    case RetainActive(when) =>
      when <= k && InRange(states[when]) && t == Retained(s, states[when].configs[states[when].activeIndex])
    case SwitchToNext(exclude, workers, w, a, ok) => workers > 0 && Switched(s, exclude, workers, w, a, ok, t)
    case HealthCheck(e, now) => t == HealthChecked(s, e, now).0
    case Populate(ok, i, world) =>
      if ok then i < |s.configs| && world.spawn.Spawned? && t == Populated(s, i, world) else BetweenProbes(s, t)
    case ChildDies => t == s.(live := map[])
    case StopXray => t == Stopped(s)
  }

  /** The life of one selector: its states from the first, and the calls between them. */
  ghost predicate Chronicle(calls: seq<Call>, states: seq<State>) {
    |states| == |calls| + 1 && states[0] == NewSelector() && forall k: nat | k < |calls| :: Went(calls, states, k)
  }

  /** Every active config of the past is captured under its moment. */
  predicate Noted(y: Runs.System, states: seq<State>, k: nat)
    requires k < |states|
  {
    forall j: nat | j <= k && InRange(states[j]) ::
      j in y.captured && y.captured[j].cfg == states[j].configs[states[j].activeIndex]
  }

  lemma CallIsARun(y: Runs.System, calls: seq<Call>, states: seq<State>, k: nat) returns (run: seq<Runs.Step>)
    requires k < |calls| < |states| && Went(calls, states, k)
    requires y.sel == states[k] && y.pending == map[] && Noted(y, states, k)
    ensures Leads(y, run, states[k + 1])
  {
    match calls[k]
    case UpdateConfigs(pool) => run := OneStep(y, Runs.Refresh(pool));
    case RetainActive(when) => run := OneStep(y, Runs.Retain(when));
    case SwitchToNext(exclude, workers, w, a, ok) => run := SwitchIsARun(y, exclude, workers, w, a, ok, states[k + 1]);
    case HealthCheck(e, now) => run := OneStep(y, Runs.Check(e, now));
    case Populate(ok, i, world) =>
      if ok {
        run := OneStep(y, Runs.PopulateAdopts(i, world.spawn.pid, world.result.latency, world.now));
      } else if states[k + 1] == states[k] {
        run := [];
      } else {
        var launched :| states[k + 1] == Runs.GivenUp(states[k], launched);
        run := OneStep(y, Runs.PopulateFails(launched));
      }
    case ChildDies => run := OneStep(y, Runs.ChildDies);
    case StopXray => run := OneStep(y, Runs.Stop);
  }

  lemma OneStep(y: Runs.System, step: Runs.Step) returns (run: seq<Runs.Step>)
    requires Runs.Enabled(y, step)
    ensures run == [step] && Runs.Runnable(y, run) && Runs.After(y, run) == Runs.Apply(y, step)
  {
    run := [step];
    Runs.Prepend(y, step, []);
  }

  lemma {:induction false} Concat(y: Runs.System, run: seq<Runs.Step>, more: seq<Runs.Step>)
    requires Runs.Runnable(y, run) && Runs.Runnable(Runs.After(y, run), more)
    ensures Runs.Runnable(y, run + more) && Runs.After(y, run + more) == Runs.After(Runs.After(y, run), more)
    decreases |run|
  {
    if run == [] {
      assert run + more == more;
    } else {
      Concat(Runs.Apply(y, run[0]), run[1..], more);
      assert run + more == [run[0]] + (run[1..] + more);
      Runs.Prepend(y, run[0], run[1..] + more);
    }
  }

  /** Whatever is called on a selector, in whatever order and with whatever outcome,
      comes to a run of the step system, so that what holds of all runs holds of it. */
  lemma {:induction false} HistoryIsARun(calls: seq<Call>, states: seq<State>, k: nat) returns (run: seq<Runs.Step>)
    requires Chronicle(calls, states) && k <= |calls|
    ensures Runs.Runnable(Runs.START, run)
    ensures var y := Runs.After(Runs.START, run); y.sel == states[k] && y.pending == map[] && Noted(y, states, k)
  {
    run := [];
    if k > 0 {
      var past := HistoryIsARun(calls, states, k - 1);
      var y := Runs.After(Runs.START, past);
      var next := CallIsARun(y, calls, states, k - 1);
      Concat(Runs.START, past, next);
      run := past + next;
    }
    var y := Runs.After(Runs.START, run);
    if InRange(y.sel) {
      Runs.Append(Runs.START, run, Runs.Capture(k));
      run := run + [Runs.Capture(k)];
    }
  }

  // ---- consistency, in terms of the calls ----

  /** Call k, if it puts a config back, puts back what the live child runs. */
  ghost predicate Fits(calls: seq<Call>, states: seq<State>, k: nat)
    requires k < |calls| < |states| && Went(calls, states, k)
  {
    calls[k].RetainActive? ==>
      var s := states[calls[k].when];
      forall pid | pid in states[k].live :: states[k].live[pid].Key() == s.configs[s.activeIndex].Key()
  }

  /** Only a retain can make a consistent selector inconsistent, and exactly if it does not fit. */
  lemma CallKeepsInvIff(calls: seq<Call>, states: seq<State>, k: nat)
    requires k < |calls| < |states| && Went(calls, states, k) && Inv(states[k])
    ensures Inv(states[k + 1]) <==> Fits(calls, states, k)
  {
    match calls[k]
    case UpdateConfigs(pool) => RefreshedInv(states[k], pool);
    case RetainActive(when) => RetainedInvIff(states[k], states[when].configs[states[when].activeIndex]);
    case SwitchToNext(exclude, workers, w, a, ok) =>
      SwitchOutcome(states[k], exclude, workers, w, a, ok, states[k + 1]);
    case _ => StoppedInv(states[k]);
  }

  /** A selector is consistent after each of its calls if and only if all its retains fit. */
  lemma {:induction false} AlwaysConsistentIff(calls: seq<Call>, states: seq<State>, n: nat)
    requires Chronicle(calls, states) && n <= |calls|
    ensures (forall k: nat | k <= n :: Inv(states[k])) <==> (forall k: nat | k < n :: Fits(calls, states, k))
  {
    if n > 0 {
      AlwaysConsistentIff(calls, states, n - 1);
      if forall k: nat | k < n :: Inv(states[k]) {
        CallKeepsInvIff(calls, states, n - 1);
      }
    }
  }
}
