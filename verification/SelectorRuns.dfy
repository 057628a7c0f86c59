// One selector under every interleaving of its lock-protected sections: pool
// refreshes, health checks, retains, populate outcomes, child deaths, and any
// number of switches whose searches run outside the lock.

module SelectorRuns {
  import opened Pool
  import opened Health
  import opened SelectorState

  /** A switch between its snapshot and its swap. */
  datatype Pending = Pending(configs: seq<ProxyConfig>, oldIndex: int, exclude: set<string>)

  /** A config read by a refresh that may want to retain it; `clean` until a switch lands. */
  datatype Captured = Captured(cfg: ProxyConfig, clean: bool)

  datatype System = System(sel: State, pending: map<nat, Pending>, captured: map<nat, Captured>)

  datatype Step =
    | Refresh(pool: seq<ProxyConfig>)
    | Capture(id: nat)
    | Retain(id: nat)
    | BeginSwitch(id: nat, exclude: set<string>)
    | CommitSwitch(id: nat, winner: nat, latency: nat, world: SwapWorld)
    | AbandonSwitch(id: nat)
    | Check(e: Evidence, now: nat)
    | PopulateAdopts(index: nat, pid: nat, latency: nat, now: nat)
    | PopulateFails(launched: bool)
    | ChildDies
    | Stop

  const START := System(NewSelector(), map[], map[])

  function Snapshot(s: State, exclude: set<string>): Pending {
    Pending(s.configs, s.activeIndex, exclude)
  }

  function KeyBefore(p: Pending): string {
    if 0 <= p.oldIndex < |p.configs| then p.configs[p.oldIndex].Key() else ""
  }

  /** What a search may come back with: a position of the snapshot that was not the
      active one and whose key is not excluded. */
  predicate IsCandidate(p: Pending, winner: nat) {
    winner < |p.configs| && winner != p.oldIndex && p.configs[winner].Key() !in p.exclude
  }

  /** A populate that adopted nobody; `launched` says if a child of its own came up meanwhile. */
  function GivenUp(s: State, launched: bool): State {
    if launched then Stopped(s).(unproven := None) else Stopped(s)
  }

  predicate Enabled(y: System, step: Step) {
    match step
    case Capture(id) => InRange(y.sel)
    case Retain(id) => id in y.captured
    case BeginSwitch(id, exclude) => id !in y.pending && y.sel.configs != []
    case CommitSwitch(id, winner, latency, world) => id in y.pending && IsCandidate(y.pending[id], winner)
    case AbandonSwitch(id) => id in y.pending
    case PopulateAdopts(index, pid, latency, now) => index < |y.sel.configs|
    case _ => true
  }

  function Soil(captured: map<nat, Captured>): map<nat, Captured> {
    map id | id in captured :: captured[id].(clean := false)
  }

  function Apply(y: System, step: Step): System
    requires Enabled(y, step)
  {
    match step
    case Refresh(pool) => y.(sel := Refreshed(y.sel, pool))
    case Capture(id) => y.(captured := y.captured[id := Captured(y.sel.configs[y.sel.activeIndex], true)])
    case Retain(id) => y.(sel := Retained(y.sel, y.captured[id].cfg))
    case BeginSwitch(id, exclude) => y.(pending := y.pending[id := Snapshot(y.sel, exclude)])
    case CommitSwitch(id, winner, latency, world) =>
      var p := y.pending[id];
      var t := Swapped(y.sel, p.configs[winner].Key(), latency, KeyBefore(p), world).0;
      System(t, y.pending - {id}, if t == y.sel then y.captured else Soil(y.captured))
    case AbandonSwitch(id) => y.(pending := y.pending - {id})
    case Check(e, now) => y.(sel := HealthChecked(y.sel, e, now).0)
    case PopulateAdopts(index, pid, latency, now) =>
      var (t, ok) := Started(y.sel, index, Spawned(pid));
      y.(sel := Adopted(t, index, latency, now), captured := Soil(y.captured))
    case PopulateFails(launched) => y.(sel := GivenUp(y.sel, launched))
    case ChildDies => y.(sel := y.sel.(live := map[]))
    case Stop => y.(sel := Stopped(y.sel))
  }

  predicate Runnable(y: System, run: seq<Step>)
    decreases |run|
  {
    run == [] || (Enabled(y, run[0]) && Runnable(Apply(y, run[0]), run[1..]))
  }

  function After(y: System, run: seq<Step>): System
    requires Runnable(y, run)
    decreases |run|
  {
    if run == [] then y else After(Apply(y, run[0]), run[1..])
  }

  // ---- consistency, and the one step that can break it ----

  /** The selector is consistent, and a config captured since the last switch is what
      the live child runs. */
  ghost predicate SysInv(y: System) {
    && Inv(y.sel)
    && forall id, pid | id in y.captured && y.captured[id].clean && pid in y.sel.live ::
         y.sel.live[pid].Key() == y.captured[id].cfg.Key()
  }

  /** A retain fits when the child that runs, if any, runs the config to be put back. */
  predicate RetainFits(y: System, step: Step)
    requires Enabled(y, step)
  {
    step.Retain? ==> forall pid | pid in y.sel.live :: y.sel.live[pid].Key() == y.captured[step.id].cfg.Key()
  }

  lemma StepInv(y: System, step: Step)
    requires SysInv(y) && Enabled(y, step) && RetainFits(y, step)
    ensures SysInv(Apply(y, step))
  {
    StoppedInv(y.sel);
    match step
    case Refresh(pool) => RefreshedInv(y.sel, pool);
    case Retain(id) => RetainedInv(y.sel, y.captured[id].cfg);
    case CommitSwitch(id, winner, latency, world) =>
      SwappedInv(y.sel, y.pending[id].configs[winner].Key(), latency, KeyBefore(y.pending[id]), world);
    case PopulateAdopts(index, pid, latency, now) =>
    case _ =>
  }

  /** Every retain of the run fits at the moment it is made. */
  predicate RetainsFit(y: System, run: seq<Step>)
    requires Runnable(y, run)
    decreases |run|
  {
    run == [] || (RetainFits(y, run[0]) && RetainsFit(Apply(y, run[0]), run[1..]))
  }

  /** The selector is consistent before, after and between all steps of the run. */
  ghost predicate Steady(y: System, run: seq<Step>)
    requires Runnable(y, run)
    decreases |run|
  {
    Inv(y.sel) && (run == [] || Steady(Apply(y, run[0]), run[1..]))
  }

  lemma {:induction false} SteadyIff(y: System, run: seq<Step>)
    requires SysInv(y) && Runnable(y, run)
    ensures Steady(y, run) <==> RetainsFit(y, run)
    ensures RetainsFit(y, run) ==> SysInv(After(y, run))
    decreases |run|
  {
    if run != [] {
      if RetainFits(y, run[0]) {
        StepInv(y, run[0]);
        SteadyIff(Apply(y, run[0]), run[1..]);
      } else {
        RetainedInvIff(y.sel, y.captured[run[0].id].cfg);
        assert !Inv(Apply(y, run[0]).sel);
      }
    }
  }

  lemma {:induction false} SteadyAt(y: System, run: seq<Step>, n: nat)
    requires Runnable(y, run) && Steady(y, run) && n <= |run|
    ensures Runnable(y, run[..n]) && Inv(After(y, run[..n]).sel)
    decreases |run|
  {
    if n > 0 {
      SteadyAt(Apply(y, run[0]), run[1..], n - 1);
      assert run[..n][1..] == run[1..][..n - 1];
    }
  }

  /** In every run whose retains fit, in every state with the lock free: the active
      index is -1 or in range, at most one serving child is live and the handle names
      it, and a live child runs the key of the active config. */
  lemma SelectorIsAlwaysConsistent(run: seq<Step>, n: nat)
    requires Runnable(START, run) && RetainsFit(START, run) && n <= |run|
    ensures Runnable(START, run[..n])
    ensures var s := After(START, run[..n]).sel;
            && (s.activeIndex == -1 || 0 <= s.activeIndex < |s.configs|)
            && |s.live| <= 1
            && (forall pid | pid in s.live :: s.handle == Some(pid))
            && (forall pid | pid in s.live && s.activeIndex != -1 ::
                  s.live[pid].Key() == s.configs[s.activeIndex].Key())
  {
    SteadyIff(START, run);
    SteadyAt(START, run, n);
    AtMostOneChild(After(START, run[..n]).sel);
  }

  /** And it takes just that: a run is consistent throughout if and only if every one of
      its retains fits. */
  lemma ConsistentIffRetainsFit(run: seq<Step>)
    requires Runnable(START, run)
    ensures Steady(START, run) <==> RetainsFit(START, run)
  {
    SteadyIff(START, run);
  }

  /** A retain made before any switch lands on what it captured always fits. */
  lemma CleanRetainFits(run: seq<Step>, id: nat)
    requires Runnable(START, run) && RetainsFit(START, run)
    requires id in After(START, run).captured && After(START, run).captured[id].clean
    ensures RetainFits(After(START, run), Retain(id))
  {
    SteadyIff(START, run);
  }

  // ---- what a switch comes to ----

  /** Whatever happened between a switch's snapshot and its swap, its outcome is one
      of: its winner serves; nothing was touched; the upstream it started from was
      restarted; or no child is left. The winner is in the snapshot and in the pool, is
      not excluded and, in a pool of distinct keys, is not the old upstream. */
  lemma CommitOutcome(y: System, id: nat, winner: nat, latency: nat, world: SwapWorld)
    requires Inv(y.sel) && Enabled(y, CommitSwitch(id, winner, latency, world))
    ensures var p := y.pending[id];
            var t := Apply(y, CommitSwitch(id, winner, latency, world)).sel;
            || (Restarted(y.sel, t, p.configs[winner].Key())
                && p.configs[winner].Key() in Keys(p.configs) * Keys(y.sel.configs)
                && p.configs[winner].Key() !in p.exclude
                && (KeyDistinct(p.configs) && 0 <= p.oldIndex < |p.configs| ==>
                    p.configs[winner].Key() != KeyBefore(p)))
            || t == y.sel
            || (KeyBefore(p) != "" && Restarted(y.sel, t, KeyBefore(p)))
            || ChildGone(y.sel, t)
  {
    SwappedOutcome(y.sel, y.pending[id].configs[winner].Key(), latency, KeyBefore(y.pending[id]), world);
  }

  // ---- health over whole runs ----

  /** What a step means to the counters, in the state it is made in. */
  function Heard(y: System, step: Step): seq<Event>
    requires Enabled(y, step)
  {
    match step
    case Check(e, _) => if InRange(y.sel) then [Ticked(e)] else []
    case PopulateAdopts(_, _, _, _) => [AdoptedUpstream]
    case CommitSwitch(id, winner, _, world) =>
      var p := y.pending[id];
      if ChildComesUp(y.sel, p.configs[winner].Key(), KeyBefore(p), world) then [AdoptedUpstream] else []
    case _ => []
  }

  function History(y: System, run: seq<Step>): seq<Event>
    requires Runnable(y, run)
    decreases |run|
  {
    if run == [] then [] else Heard(y, run[0]) + History(Apply(y, run[0]), run[1..])
  }

  predicate Counts(s: State, h: seq<Event>) {
    s.failCount == Strikes(h) && s.okStreak == Streak(h)
  }

  lemma StepCounts(y: System, step: Step, h: seq<Event>)
    requires Enabled(y, step) && Counts(y.sel, h)
    ensures Counts(Apply(y, step).sel, h + Heard(y, step))
  {
    var heard := Heard(y, step);
    if step.CommitSwitch? {
      var p := y.pending[step.id];
      SwappedCounters(y.sel, p.configs[step.winner].Key(), step.latency, KeyBefore(p), step.world);
    }
    if heard == [] {
      assert h + heard == h;
    } else {
      assert (h + heard)[..|h|] == h;
    }
  }

  lemma {:induction false} RunCounts(y: System, run: seq<Step>, h: seq<Event>)
    requires Runnable(y, run) && Counts(y.sel, h)
    ensures Counts(After(y, run).sel, h + History(y, run))
    decreases |run|
  {
    if run == [] {
      assert h + [] == h;
    } else {
      StepCounts(y, run[0], h);
      RunCounts(Apply(y, run[0]), run[1..], h + Heard(y, run[0]));
      Regroup(h, Heard(y, run[0]), History(Apply(y, run[0]), run[1..]));
    }
  }

  lemma Regroup(a: seq<Event>, b: seq<Event>, c: seq<Event>)
    ensures (a + b) + c == a + (b + c)
  {
  }

  /** In every run, through refreshes, retains, switches that fail or restore, and
      anything else: the two counters are folds of the run. */
  lemma CountersAreHistory(run: seq<Step>)
    requires Runnable(START, run)
    ensures After(START, run).sel.failCount == Strikes(History(START, run))
    ensures After(START, run).sel.okStreak == Streak(History(START, run))
  {
    RunCounts(START, run, []);
    assert [] + History(START, run) == History(START, run);
  }

  /** At any point of any run a check of a valid active config fails exactly when it is
      itself a strike and the third, or a later one, since the last success, passive
      proof or fresh child; an inconclusive tick moves neither counter. */
  lemma FailsIffThirdStrike(run: seq<Step>, e: Evidence, now: nat)
    requires Runnable(START, run) && InRange(After(START, run).sel)
    ensures var s := After(START, run).sel;
            var (t, ok) := HealthChecked(s, e, now);
            && (!ok <==> IsStrike(Ticked(e)) && Strikes(History(START, run)) + 1 >= HEALTH_FAIL_THRESHOLD)
            && (!IsStrike(Ticked(e)) && !IsSuccess(Ticked(e)) ==>
                t.failCount == s.failCount && t.okStreak == s.okStreak)
  {
    CountersAreHistory(run);
  }

  lemma Prepend(y: System, step: Step, rest: seq<Step>)
    requires Enabled(y, step) && Runnable(Apply(y, step), rest)
    ensures Runnable(y, [step] + rest) && After(y, [step] + rest) == After(Apply(y, step), rest)
  {
    assert ([step] + rest)[1..] == rest;
  }

  /** A run with a retain that does not fit, as a refresh would make it: the active
      config is captured, a switch takes its snapshot, the refresh makes the captured
      config absent, and the switch lands. Put back over the winner's child, index and
      child name different keys. */
  lemma LateRetainMixesUpKeys(a: ProxyConfig, b: ProxyConfig) returns (run: seq<Step>)
    requires a.Key() != b.Key() && a.Key() != "" && b.Key() != ""
    ensures Runnable(START, run) && !RetainsFit(START, run)
    ensures |run| == 7 && run[2] == Capture(0) && run[3] == BeginSwitch(0, {}) && run[4] == Refresh([b])
            && run[5].CommitSwitch? && run[6] == Retain(0)
    ensures Runnable(START, run[..5]) && ActiveKey(After(START, run[..5]).sel) == None
    ensures var s := After(START, run).sel;
            InRange(s) && exists pid :: pid in s.live && s.live[pid].Key() != s.configs[s.activeIndex].Key()
  {
    var world := SwapWorld(Spawned(2), true, HealthResult(true, false, 204, 1, ""), LaunchFails, 0);
    var y5, gone := CaptureAndLose(a, b);
    var commit := CommitSwitch(0, 1, 0, world);
    var y6 := LateCommit(a, b, y5, commit);
    Append(START, gone, commit);
    run := EndsInMisfit(gone + [commit], 0);
    assert run[..5] == gone;
  }

  /** A retain that leaves index and child at odds did not fit. */
  lemma EndsInMisfit(run: seq<Step>, id: nat) returns (longer: seq<Step>)
    requires Runnable(START, run) && id in After(START, run).captured
    requires !Inv(Retained(After(START, run).sel, After(START, run).captured[id].cfg))
    ensures longer == run + [Retain(id)] && Runnable(START, longer) && !RetainsFit(START, longer)
    ensures After(START, longer) == Apply(After(START, run), Retain(id))
  {
    longer := run + [Retain(id)];
    Append(START, run, Retain(id));
    SteadyIff(START, longer);
  }

  /** A config is captured, and after the next switch's snapshot a refresh drops it. */
  lemma CaptureAndLose(a: ProxyConfig, b: ProxyConfig) returns (y: System, run: seq<Step>)
    requires a.Key() != b.Key() && a.Key() != ""
    ensures Runnable(START, run) && After(START, run) == y && SysInv(y)
    ensures |run| == 5 && run[2] == Capture(0) && run[3] == BeginSwitch(0, {}) && run[4] == Refresh([b])
    ensures y.sel.configs == [b] && ActiveKey(y.sel) == None
    ensures y.captured == map[0 := Captured(a, true)] && y.pending == map[0 := Pending([a, b], 0, {})]
  {
    var y3, first := AdoptAndCapture(a, b);
    var begin, refresh := BeginSwitch(0, {}), Refresh([b]);
    Append(START, first, begin);
    Append(START, first + [begin], refresh);
    y, run := Apply(Apply(y3, begin), refresh), first + [begin] + [refresh];
    RefreshedInv(y3.sel, [b]);
  }

  /** The switch lands after the refresh, and the captured config is another's. */
  lemma LateCommit(a: ProxyConfig, b: ProxyConfig, y: System, commit: Step) returns (next: System)
    requires a.Key() != b.Key() && SysInv(y) && y.sel.configs == [b] && y.captured.Keys == {0} && y.captured[0].cfg == a
    requires y.pending == map[0 := Pending([a, b], 0, {})]
    requires commit.CommitSwitch? && commit.id == 0 && commit.winner == 1 && commit.world.start == Spawned(2)
    requires commit.world.bound && commit.world.verify.working
    ensures Enabled(y, commit) && next == Apply(y, commit) && Enabled(next, Retain(0))
    ensures var s := Apply(next, Retain(0)).sel;
            InRange(s) && 2 in s.live && s.live[2].Key() != s.configs[s.activeIndex].Key()
  {
    assert b in [b];
    SwappedOutcome(y.sel, b.Key(), commit.latency, a.Key(), commit.world);
    next := Apply(y, commit);
    assert next.sel.live[2] == b;
  }

  lemma AdoptAndCapture(a: ProxyConfig, b: ProxyConfig) returns (y: System, run: seq<Step>)
    requires a.Key() != b.Key()
    ensures Runnable(START, run) && After(START, run) == y
    ensures SysInv(y) && y.pending == map[] && y.captured == map[0 := Captured(a, true)]
    ensures y.sel.configs == [a, b] && y.sel.activeIndex == 0 && y.sel.handle == Some(1) && y.sel.live == map[1 := a]
    ensures |run| == 3 && run[2] == Capture(0)
  {
    var y0 := START;
    var y1 := Apply(y0, Refresh([a, b]));
    var y2 := Apply(y1, PopulateAdopts(0, 1, 0, 0));
    y := Apply(y2, Capture(0));
    Append(y0, [], Refresh([a, b]));
    Append(y0, [Refresh([a, b])], PopulateAdopts(0, 1, 0, 0));
    Append(y0, [Refresh([a, b])] + [PopulateAdopts(0, 1, 0, 0)], Capture(0));
    run := [Refresh([a, b])] + [PopulateAdopts(0, 1, 0, 0)] + [Capture(0)];
    SteadyIff(y0, run);
  }

  lemma {:induction false} Append(y: System, run: seq<Step>, step: Step)
    requires Runnable(y, run) && Enabled(After(y, run), step)
    ensures Runnable(y, run + [step]) && After(y, run + [step]) == Apply(After(y, run), step)
    decreases |run|
  {
    if run == [] {
      assert run + [step] == [step] + [];
      Prepend(y, step, []);
    } else {
      Append(Apply(y, run[0]), run[1..], step);
      assert run + [step] == [run[0]] + (run[1..] + [step]);
      Prepend(y, run[0], run[1..] + [step]);
    }
  }
}
