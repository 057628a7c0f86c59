// Instances during a refresh (v2proxy/manager.go): those that are down recover in
// parallel while the refresh goes on to give the others their pools and to reconcile
// them. Whoever acts looks first at what the others serve, one after the other, and then
// switches away from that, or retains what it had. What it saw may be out of date by then.

module Recovery {
  import opened Pool
  import opened Health
  import opened SelectorState
  import Runs = SelectorRuns

  /** Where one instance stands before it acts and after. `looked` holds whom it has looked
      at, and whether they had not acted yet; `early`, those of whom that was so. */
  datatype Recovering =
    | Looking(looked: map<nat, bool>, avoid: set<string>)
    | Done(early: set<nat>, won: Option<string>)

  datatype System = System(fleet: seq<State>, recs: seq<Recovering>)

  datatype Step =
    | Refresh(i: nat, pool: seq<ProxyConfig>)
    | Look(i: nat, j: nat)
    | Commit(i: nat, winner: Option<nat>, latency: nat, world: SwapWorld)
    | Retain(i: nat, cfg: ProxyConfig)

  function Start(fleet: seq<State>): System {
    System(fleet, seq(|fleet|, _ => Looking(map[], {})))
  }

  function KeySet(s: State): set<string> {
    if ActiveKey(s).Some? then {ActiveKey(s).value} else {}
  }

  function Early(looked: map<nat, bool>): set<nat> {
    set j | j in looked && looked[j]
  }

  /** It has looked at everybody else and not acted yet. */
  predicate LookedAround(y: System, i: nat)
    requires i < |y.recs| == |y.fleet|
  {
    y.recs[i].Looking? && forall j | 0 <= j < |y.fleet| && j != i :: j in y.recs[i].looked
  }

  /** A config may be retained if nobody was seen with its key, and the child runs it. */
  predicate MayRetain(s: State, avoid: set<string>, cfg: ProxyConfig) {
    cfg.Key() !in avoid && forall pid | pid in s.live :: s.live[pid].Key() == cfg.Key()
  }

  predicate Enabled(y: System, step: Step)
    requires |y.recs| == |y.fleet|
  {
    match step
    case Refresh(i, pool) => i < |y.fleet| && y.recs[i].Looking?
    case Look(i, j) => i < |y.fleet| && j < |y.fleet| && i != j && y.recs[i].Looking? && j !in y.recs[i].looked
    case Commit(i, winner, latency, world) =>
      && i < |y.fleet| && LookedAround(y, i)
      && (winner.Some? ==> Runs.IsCandidate(Runs.Snapshot(y.fleet[i], y.recs[i].avoid), winner.value))
    case Retain(i, cfg) => i < |y.fleet| && LookedAround(y, i) && MayRetain(y.fleet[i], y.recs[i].avoid, cfg)
  }

  function Apply(y: System, step: Step): (t: System)
    requires |y.recs| == |y.fleet| && Enabled(y, step)
    ensures |t.recs| == |t.fleet| == |y.fleet|
  {
    match step
    case Refresh(i, pool) => y.(fleet := y.fleet[i := Refreshed(y.fleet[i], pool)])
    case Look(i, j) =>
      var r := y.recs[i];
      y.(recs := y.recs[i := Looking(r.looked[j := y.recs[j].Looking?], r.avoid + KeySet(y.fleet[j]))])
    case Commit(i, winner, latency, world) =>
      var early := Early(y.recs[i].looked);
      if winner.None? then y.(recs := y.recs[i := Done(early, None)])
      else
        var key := y.fleet[i].configs[winner.value].Key();
        var (s, ok) := Swapped(y.fleet[i], key, latency, OldKey(y.fleet[i]), world);
        System(y.fleet[i := s], y.recs[i := Done(early, if ok then Some(key) else None)])
    case Retain(i, cfg) =>
      System(y.fleet[i := Retained(y.fleet[i], cfg)], y.recs[i := Done(Early(y.recs[i].looked), Some(cfg.Key()))])
  }

  /** A run, newest step last. */
  predicate Runnable(fleet: seq<State>, run: seq<Step>)
    decreases |run|, 0
  {
    run == [] || (Runnable(fleet, run[..|run| - 1]) && Enabled(After(fleet, run[..|run| - 1]), run[|run| - 1]))
  }

  function After(fleet: seq<State>, run: seq<Step>): (y: System)
    requires Runnable(fleet, run)
    ensures |y.recs| == |y.fleet| == |fleet|
    decreases |run|, 1
  {
    if run == [] then Start(fleet) else Apply(After(fleet, run[..|run| - 1]), run[|run| - 1])
  }

  // ---- the invariant ----

  predicate Won(r: Recovering) {
    r.Done? && r.won.Some?
  }

  predicate SameKey(s: State, t: State) {
    ActiveKey(s).Some? && ActiveKey(s) == ActiveKey(t)
  }

  /** Who looked at whom in time, told from both ends. */
  predicate Overlap(y: System, i: nat, j: nat)
    requires i < |y.recs| && j < |y.recs|
  {
    Won(y.recs[i]) && Won(y.recs[j]) && j in y.recs[i].early && i in y.recs[j].early
  }

  ghost predicate Pair(y: System, i: nat, j: nat)
    requires |y.recs| == |y.fleet| && i < |y.fleet| && j < |y.fleet|
  {
    // Two instances share a key only if each looked at the other before it acted.
    && (SameKey(y.fleet[i], y.fleet[j]) ==> Overlap(y, i, j))
    // What i saw of j still holds, unless j has acted since.
    && (y.recs[i].Looking? && j in y.recs[i].looked ==>
          && (KeySet(y.fleet[j]) <= y.recs[i].avoid || (y.recs[i].looked[j] && Won(y.recs[j])))
          && (y.recs[j].Looking? ==> y.recs[i].looked[j]))
    // Whoever is still looking was looked at in time.
    && (y.recs[i].Done? && y.recs[j].Looking? ==> j in y.recs[i].early)
  }

  ghost predicate SysInv(y: System) {
    && |y.recs| == |y.fleet|
    && (forall i | 0 <= i < |y.fleet| :: Inv(y.fleet[i]))
    && (forall i | 0 <= i < |y.fleet| && Won(y.recs[i]) :: ActiveKey(y.fleet[i]) == y.recs[i].won)
    && (forall i, j | 0 <= i < |y.fleet| && 0 <= j < |y.fleet| && i != j :: Pair(y, i, j))
  }

  /** Pairwise-distinct active keys. */
  predicate Apart(fleet: seq<State>) {
    forall i, j | 0 <= i < |fleet| && 0 <= j < |fleet| && i != j :: !SameKey(fleet[i], fleet[j])
  }

  ghost predicate Healthy(fleet: seq<State>) {
    (forall k | 0 <= k < |fleet| :: Inv(fleet[k])) && Apart(fleet)
  }

  /** A switch that fails leaves the active key as it was. */
  lemma FailureKeepsKey(s: State, winKey: string, latency: nat, w: SwapWorld)
    requires Inv(s)
    ensures var (t, ok) := Swapped(s, winKey, latency, OldKey(s), w);
            Inv(t) && ActiveKey(t) == if ok then Some(winKey) else ActiveKey(s)
  {
    SwappedOutcome(s, winKey, latency, OldKey(s), w);
    SwappedInv(s, winKey, latency, OldKey(s), w);
  }

  predicate Acts(step: Step) {
    step.Commit? || step.Retain?
  }

  /** The only instance a step touches, and what becomes of it. */
  lemma ActEffect(y: System, step: Step)
    requires SysInv(y) && Enabled(y, step) && Acts(step)
    ensures var t := Apply(y, step);
            var i := step.i;
            && t.fleet == y.fleet[i := t.fleet[i]] && t.recs == y.recs[i := t.recs[i]]
            && Inv(t.fleet[i]) && t.recs[i].Done? && t.recs[i].early == Early(y.recs[i].looked)
            && (if t.recs[i].won.Some? then
                  ActiveKey(t.fleet[i]) == t.recs[i].won && t.recs[i].won.value !in y.recs[i].avoid
                else ActiveKey(t.fleet[i]) == ActiveKey(y.fleet[i]))
  {
    if step.Retain? {
      RetainedInv(y.fleet[step.i], step.cfg);
    } else if step.winner.Some? {
      FailureKeepsKey(y.fleet[step.i], y.fleet[step.i].configs[step.winner.value].Key(), step.latency, step.world);
    }
  }

  lemma ActPair(y: System, step: Step, j: nat)
    requires SysInv(y) && Enabled(y, step) && Acts(step) && j < |y.fleet| && j != step.i
    ensures Pair(Apply(y, step), step.i, j) && Pair(Apply(y, step), j, step.i)
  {
    ActEffect(y, step);
    assert Pair(y, step.i, j) && Pair(y, j, step.i);
  }

  lemma StepInv(y: System, step: Step)
    requires SysInv(y) && Enabled(y, step)
    ensures SysInv(Apply(y, step))
  {
    var t := Apply(y, step);
    if Acts(step) {
      ActEffect(y, step);
      forall i, j | 0 <= i < |t.fleet| && 0 <= j < |t.fleet| && i != j
        ensures Pair(t, i, j)
      {
        if i == step.i {
          ActPair(y, step, j);
        } else if j == step.i {
          ActPair(y, step, i);
        } else {
          assert Pair(y, i, j);
        }
      }
    } else if step.Refresh? {
      RefreshedInv(y.fleet[step.i], step.pool);
      forall i, j | 0 <= i < |t.fleet| && 0 <= j < |t.fleet| && i != j
        ensures Pair(t, i, j)
      {
        assert Pair(y, i, j);
      }
    } else {
      forall i, j | 0 <= i < |t.fleet| && 0 <= j < |t.fleet| && i != j
        ensures Pair(t, i, j)
      {
        assert Pair(y, i, j) && Pair(y, j, i);
      }
    }
  }

  lemma {:induction false} RunInv(fleet: seq<State>, run: seq<Step>)
    requires Healthy(fleet) && Runnable(fleet, run)
    ensures SysInv(After(fleet, run))
  {
    if run != [] {
      RunInv(fleet, run[..|run| - 1]);
      StepInv(After(fleet, run[..|run| - 1]), run[|run| - 1]);
    }
  }

  // ---- early means before, in the run itself ----

  predicate Acted(run: seq<Step>, j: nat) {
    exists q :: 0 <= q < |run| && Acts(run[q]) && run[q].i == j
  }

  /** Recovery i looked at instance j before j acted. */
  predicate LookedFirst(run: seq<Step>, i: nat, j: nat) {
    exists p :: 0 <= p < |run| && run[p] == Look(i, j) && !Acted(run[..p], j)
  }

  lemma OneMoreStep(run: seq<Step>, step: Step, i: nat, j: nat)
    ensures Acted(run + [step], j) <==> Acted(run, j) || (Acts(step) && step.i == j)
    ensures LookedFirst(run + [step], i, j) <==> LookedFirst(run, i, j) || (step == Look(i, j) && !Acted(run, j))
  {
    var more := run + [step];
    assert more[|run|] == step && more[..|run|] == run;
    if q :| 0 <= q < |run| && Acts(run[q]) && run[q].i == j {
      assert more[q] == run[q];
    }
    if p :| 0 <= p < |run| && run[p] == Look(i, j) && !Acted(run[..p], j) {
      assert more[p] == run[p] && more[..p] == run[..p];
    }
    if p :| 0 <= p < |more| && more[p] == Look(i, j) && !Acted(more[..p], j) {
      if p < |run| {
        assert run[p] == more[p] && run[..p] == more[..p];
      }
    }
  }

  /** What the books say of a pair is what the run says. */
  ghost predicate Told(y: System, run: seq<Step>, i: nat, j: nat)
    requires i < |y.recs| && j < |y.recs|
  {
    && (y.recs[j].Done? <==> Acted(run, j))
    && (if y.recs[i].Looking? then j in Early(y.recs[i].looked) <==> LookedFirst(run, i, j)
        else j in y.recs[i].early <==> LookedFirst(run, i, j))
  }

  lemma {:induction false} BooksMatchRun(fleet: seq<State>, run: seq<Step>, i: nat, j: nat)
    requires Runnable(fleet, run) && i < |fleet| && j < |fleet|
    ensures Told(After(fleet, run), run, i, j)
  {
    if run != [] {
      var init, step := run[..|run| - 1], run[|run| - 1];
      BooksMatchRun(fleet, init, i, j);
      assert run == init + [step];
      OneMoreStep(init, step, i, j);
      StepTold(After(fleet, init), step, init, i, j);
    }
  }

  lemma StepTold(y: System, step: Step, run: seq<Step>, i: nat, j: nat)
    requires |y.recs| == |y.fleet| && Enabled(y, step) && i < |y.fleet| && j < |y.fleet| && Told(y, run, i, j)
    ensures var t := Apply(y, step);
            && (t.recs[j].Done? <==> Acted(run, j) || (Acts(step) && step.i == j))
            && var looked := LookedFirst(run, i, j) || (step == Look(i, j) && !Acted(run, j));
               if t.recs[i].Looking? then j in Early(t.recs[i].looked) <==> looked else j in t.recs[i].early <==> looked
  {
  }

  // ---- the main results ----

  /** Both acted and ended on the same key, and each had looked at the other before the
      other acted. */
  predicate Collide(y: System, run: seq<Step>, i: nat, j: nat)
    requires i < |y.recs| && j < |y.recs|
  {
    && Won(y.recs[i]) && Won(y.recs[j]) && y.recs[i].won == y.recs[j].won
    && LookedFirst(run, i, j) && LookedFirst(run, j, i)
  }

  /** Any number of refreshes, switches and retains, in any order: two instances end on
      one key if and only if both switched to it or retained it, and each had looked at
      the other before the other did. A switch that fails leaves its instance's key as it was. */
  lemma RecoveriesCollideIff(fleet: seq<State>, run: seq<Step>, i: nat, j: nat)
    requires Healthy(fleet) && Runnable(fleet, run) && i < |fleet| && j < |fleet| && i != j
    ensures var y := After(fleet, run); SameKey(y.fleet[i], y.fleet[j]) <==> Collide(y, run, i, j)
  {
    RunInv(fleet, run);
    BooksMatchRun(fleet, run, i, j);
    BooksMatchRun(fleet, run, j, i);
    assert Pair(After(fleet, run), i, j);
  }

  /** So the fleet stays apart if and only if no two of them collide in that way. */
  lemma ApartIff(fleet: seq<State>, run: seq<Step>)
    requires Healthy(fleet) && Runnable(fleet, run)
    ensures var y := After(fleet, run);
            Apart(y.fleet) <==> forall i, j | 0 <= i < |fleet| && 0 <= j < |fleet| && i != j :: !Collide(y, run, i, j)
  {
    forall i, j | 0 <= i < |fleet| && 0 <= j < |fleet| && i != j
      ensures var y := After(fleet, run); SameKey(y.fleet[i], y.fleet[j]) <==> Collide(y, run, i, j)
    {
      RecoveriesCollideIff(fleet, run, i, j);
    }
  }

  /** Such a run, from a fleet of two idle instances with the same one-config pool: both
      look, both switch, both serve it. */
  lemma ParallelRecoveryCollides(cfg: ProxyConfig) returns (fleet: seq<State>, run: seq<Step>)
    ensures |fleet| == 2 && Healthy(fleet) && Runnable(fleet, run)
    ensures var y := After(fleet, run);
            ActiveKey(y.fleet[0]) == ActiveKey(y.fleet[1]) == Some(cfg.Key()) && Collide(y, run, 0, 1)
  {
    var idle := NewSelector().(configs := [cfg]);
    fleet := [idle, idle];
    var w1 := SwapWorld(Spawned(1), true, HealthResult(true, false, 204, 1, ""), LaunchFails, 0);
    var w2 := w1.(start := Spawned(2));
    var one := Adopts(idle, cfg, w1);
    var two := Adopts(idle, cfg, w2);
    var y;
    run, y := BothLook(idle);
    run, y := Then(fleet, run, Commit(0, Some(0), 1, w1));
    assert y.fleet == [one, idle] && y.recs[1] == Looking(map[0 := true], {});
    run, y := Then(fleet, run, Commit(1, Some(0), 1, w2));
    assert y.fleet[0] == one && y.fleet[1] == two;
    RecoveriesCollideIff(fleet, run, 0, 1);
  }

  /** An idle selector that has looked at nobody serving takes its one config. */
  lemma Adopts(idle: State, cfg: ProxyConfig, w: SwapWorld) returns (s: State)
    requires idle == NewSelector().(configs := [cfg]) && w.start.Spawned? && w.bound && w.verify.working
    ensures Runs.IsCandidate(Runs.Snapshot(idle, {}), 0)
    ensures Swapped(idle, cfg.Key(), 1, OldKey(idle), w) == (s, true) && ActiveKey(s) == Some(cfg.Key())
  {
    assert cfg in [cfg];
    SwappedOutcome(idle, cfg.Key(), 1, "", w);
    s := Swapped(idle, cfg.Key(), 1, "", w).0;
  }

  lemma BothLook(idle: State) returns (run: seq<Step>, y: System)
    requires ActiveKey(idle) == None
    ensures Runnable([idle, idle], run) && After([idle, idle], run) == y
    ensures y == System([idle, idle], [Looking(map[1 := true], {}), Looking(map[0 := true], {})])
  {
    var fleet := [idle, idle];
    run := [];
    run, y := Then(fleet, run, Look(0, 1));
    run, y := Then(fleet, run, Look(1, 0));
    assert y.recs[0].avoid == {} && y.recs[1].avoid == {};
    assert y.recs[0].looked == map[1 := true] && y.recs[1].looked == map[0 := true];
  }

  lemma Then(fleet: seq<State>, run: seq<Step>, step: Step) returns (more: seq<Step>, y: System)
    requires Runnable(fleet, run) && Enabled(After(fleet, run), step)
    ensures Runnable(fleet, more) && After(fleet, more) == y && y == Apply(After(fleet, run), step)
  {
    more := run + [step];
    assert more[..|run|] == run;
    y := Apply(After(fleet, run), step);
  }
}
