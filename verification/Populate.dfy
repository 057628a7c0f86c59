// One selector's side of the populate ledger (v2proxy/selector.go): the ledger as an
// object, what a pass over the pool makes of each candidate, and the trail that it
// leaves in the ledger.

module Populate {
  import opened Pool
  import opened Health
  import opened SelectorState
  import Ledger

  // ---- verdicts ----

  /** Where a pass that adopts nobody ends: at the first turn past the deadline, or at the end. */
  function PassEnds(worlds: seq<ProbeWorld>, hasDeadline: bool): (end: nat)
    ensures end <= |worlds|
    ensures forall k | 0 <= k < end :: !(hasDeadline && worlds[k].late)
    ensures end < |worlds| ==> hasDeadline && worlds[end].late
  {
    if worlds == [] || (hasDeadline && worlds[0].late) then 0 else 1 + PassEnds(worlds[1..], hasDeadline)
  }

  /** A pass that got as far as candidate i goes on past it unless that one is late. */
  lemma GoesOnUnlessLate(worlds: seq<ProbeWorld>, hasDeadline: bool, i: nat)
    requires i <= PassEnds(worlds, hasDeadline) && i < |worlds|
    ensures i == PassEnds(worlds, hasDeadline) <==> hasDeadline && worlds[i].late
  {
  }

  /** What a populate probe learns of a candidate. */
  datatype Finding = NoChild | Exited | Silent | Throttled | Unfit | Fit

  /** The outside world as one turn of a populate pass meets it; `late`: the deadline
      has passed when the turn comes. */
  datatype ProbeWorld = ProbeWorld(late: bool, spawn: Spawn, bound: bool, exited: bool, result: HealthResult, now: nat)

  /** A child that exited is proven bad; a live one that never bound, or whose probe
      was refused by its target, is unproven. */
  function Found(w: ProbeWorld): Finding {
    if !w.spawn.Spawned? then NoChild
    else if !w.bound then (if w.exited then Exited else Silent)
    else match ClassifyProbe(w.result)
      case Adopt => Fit
      case Unproven => Throttled
      case Reject => Unfit
  }

  // ---- the trail of a pass ----

  /** What became of one candidate: excluded, bad when it was looked at, lost to a peer
      that held its claim, or claimed and probed. */
  datatype Fate = Excluded | Bad | Lost | Probed

  /** How the ledger hears of a verdict. */
  function Report(v: Finding, me: nat): Ledger.Step {
    match v
    case Fit => Ledger.Adopt(me)
    case Silent => Ledger.Silent(me)
    case Throttled => Ledger.Throttled(me)
    case _ => Ledger.Reject(me)
  }

  /** The ledger steps of one candidate. */
  function Steps(f: Fate, v: Finding, me: nat): seq<Ledger.Step> {
    match f
    case Excluded => [Ledger.SkipExcluded(me)]
    case Bad => [Ledger.SkipBad(me)]
    case Lost => [Ledger.Check(me), Ledger.LoseClaim(me)]
    case Probed => [Ledger.Check(me), Ledger.Claim(me)] + Reported(v, me)
  }

  /** The steps after a claim: the report and, unless the candidate is kept, the release. */
  function Reported(v: Finding, me: nat): seq<Ledger.Step> {
    if v == Fit then [Report(v, me)] else [Report(v, me), Ledger.Release(me), Ledger.StopChild(me)]
  }

  function Trail(fates: seq<Fate>, worlds: seq<ProbeWorld>, me: nat): seq<Ledger.Step>
    requires |fates| <= |worlds|
  {
    if fates == [] then []
    else
      var n := |fates| - 1;
      Trail(fates[..n], worlds, me) + Steps(fates[n], Found(worlds[n]), me)
  }

  lemma TrailSnoc(fates: seq<Fate>, f: Fate, worlds: seq<ProbeWorld>, me: nat)
    requires |fates| < |worlds|
    ensures Trail(fates + [f], worlds, me) == Trail(fates, worlds, me) + Steps(f, Found(worlds[|fates|]), me)
    ensures Skipped(fates + [f], worlds) == Skipped(fates, worlds) + if Counts(f, worlds[|fates|]) then 1 else 0
  {
    assert (fates + [f])[..|fates|] == fates;
  }

  /** A candidate counts as skipped if it was bad when looked at, or claimed and silent. */
  predicate Counts(f: Fate, w: ProbeWorld) {
    f.Bad? || (f.Probed? && Found(w) == Silent)
  }

  predicate Adopts(f: Fate, w: ProbeWorld) {
    f.Probed? && Found(w) == Fit
  }

  /** Nobody was adopted. */
  predicate Barren(fates: seq<Fate>, worlds: seq<ProbeWorld>) {
    |fates| <= |worlds| && forall k | 0 <= k < |fates| :: !Adopts(fates[k], worlds[k])
  }

  predicate SomeCount(fates: seq<Fate>, worlds: seq<ProbeWorld>) {
    |fates| <= |worlds| && exists k :: 0 <= k < |fates| && Counts(fates[k], worlds[k])
  }

  /** Proven bad, as opposed to unproven. */
  predicate IsRejection(v: Finding) {
    v == NoChild || v == Exited || v == Unfit
  }

  /** What the fate of one candidate means: excluded keys are passed over, bad ones only
      by a pass that respects the marks, and whatever was rejected is marked by now. */
  predicate TurnedOut(key: string, exclude: set<string>, respectBad: bool, w: ProbeWorld, f: Fate, bad: set<string>) {
    && (f.Excluded? <==> key in exclude)
    && (f.Bad? ==> respectBad && key in bad)
    && (f.Probed? && IsRejection(Found(w)) ==> key in bad)
  }

  predicate PassOver(configs: seq<ProxyConfig>, exclude: set<string>, respectBad: bool, worlds: seq<ProbeWorld>,
                     fates: seq<Fate>, bad: set<string>)
  {
    |fates| <= |configs| == |worlds|
    && forall k | 0 <= k < |fates| :: TurnedOut(configs[k].Key(), exclude, respectBad, worlds[k], fates[k], bad)
  }

  lemma MarksGrow(configs: seq<ProxyConfig>, exclude: set<string>, respectBad: bool, worlds: seq<ProbeWorld>,
                  fates: seq<Fate>, bad: set<string>, more: set<string>)
    requires PassOver(configs, exclude, respectBad, worlds, fates, bad) && bad <= more
    ensures PassOver(configs, exclude, respectBad, worlds, fates, more)
  {
    forall k | 0 <= k < |fates|
      ensures TurnedOut(configs[k].Key(), exclude, respectBad, worlds[k], fates[k], more)
    {
      assert TurnedOut(configs[k].Key(), exclude, respectBad, worlds[k], fates[k], bad);
    }
  }

  lemma OneMoreTurn(configs: seq<ProxyConfig>, exclude: set<string>, respectBad: bool, worlds: seq<ProbeWorld>,
                    fates: seq<Fate>, f: Fate, bad: set<string>, more: set<string>)
    requires PassOver(configs, exclude, respectBad, worlds, fates, bad) && bad <= more && |fates| < |configs|
    requires TurnedOut(configs[|fates|].Key(), exclude, respectBad, worlds[|fates|], f, more)
    ensures PassOver(configs, exclude, respectBad, worlds, fates + [f], more)
    ensures Barren(fates, worlds) && !Adopts(f, worlds[|fates|]) ==> Barren(fates + [f], worlds)
  {
    MarksGrow(configs, exclude, respectBad, worlds, fates, bad, more);
    var longer := fates + [f];
    forall k | 0 <= k < |longer|
      ensures TurnedOut(configs[k].Key(), exclude, respectBad, worlds[k], longer[k], more)
    {
      if k < |fates| {
        assert longer[k] == fates[k];
        assert TurnedOut(configs[k].Key(), exclude, respectBad, worlds[k], fates[k], more);
      }
    }
  }

  function Skipped(fates: seq<Fate>, worlds: seq<ProbeWorld>): nat
    requires |fates| <= |worlds|
  {
    if fates == [] then 0
    else
      var n := |fates| - 1;
      Skipped(fates[..n], worlds) + if Counts(fates[n], worlds[n]) then 1 else 0
  }

  lemma {:induction false} SkippedIff(fates: seq<Fate>, worlds: seq<ProbeWorld>)
    requires |fates| <= |worlds|
    ensures Skipped(fates, worlds) > 0 <==> SomeCount(fates, worlds)
  {
    if fates != [] {
      var n := |fates| - 1;
      SkippedIff(fates[..n], worlds);
      assert forall k | 0 <= k < n :: fates[..n][k] == fates[k];
    }
  }

  /** Where a pass stands: fates, count and trail agree, and nobody was adopted so far,
      or, if it has won, nobody but the last. */
  predicate Progress(configs: seq<ProxyConfig>, exclude: set<string>, respectBad: bool, worlds: seq<ProbeWorld>,
                     me: nat, fates: seq<Fate>, bad: set<string>, skipped: nat, start: seq<Ledger.Step>,
                     own: seq<Ledger.Step>, won: bool)
  {
    && PassOver(configs, exclude, respectBad, worlds, fates, bad)
    && (if won then
          && fates != [] && |fates| <= |worlds| && Barren(fates[..|fates| - 1], worlds)
          && Adopts(fates[|fates| - 1], worlds[|fates| - 1])
        else Barren(fates, worlds))
    && skipped == (if respectBad then Skipped(fates, worlds) else 0)
    && own == start + Trail(fates, worlds, me)
  }

  /** One more turn: the same agreement, whether or not it adopts. */
  lemma Progresses(configs: seq<ProxyConfig>, exclude: set<string>, respectBad: bool, worlds: seq<ProbeWorld>, me: nat,
                   fates: seq<Fate>, bad: set<string>, skipped: nat, start: seq<Ledger.Step>, own: seq<Ledger.Step>,
                   f: Fate, bad': set<string>, skipped': nat, own': seq<Ledger.Step>)
    requires Progress(configs, exclude, respectBad, worlds, me, fates, bad, skipped, start, own, false)
    requires |fates| < |configs| && bad <= bad'
             && TurnedOut(configs[|fates|].Key(), exclude, respectBad, worlds[|fates|], f, bad')
    requires skipped' == if respectBad && Counts(f, worlds[|fates|]) then skipped + 1 else skipped
    requires own' == own + Steps(f, Found(worlds[|fates|]), me)
    ensures Progress(configs, exclude, respectBad, worlds, me, fates + [f], bad', skipped', start, own',
                     Adopts(f, worlds[|fates|]))
  {
    assert (fates + [f])[..|fates|] == fates;
    OneMoreTurn(configs, exclude, respectBad, worlds, fates, f, bad, bad');
    TrailSnoc(fates, f, worlds, me);
    Regroup(start, Trail(fates, worlds, me), Steps(f, Found(worlds[|fates|]), me));
  }

  /** A pool in which every probe is refused by its target, and no peer has marked
      anything bad: the first pass adopts nobody and counts nothing, whatever peers claim
      meanwhile. So there is no second pass, though every candidate is unproven. */
  lemma ThrottledAloneIsNotRetried(configs: seq<ProxyConfig>, exclude: set<string>, first: seq<ProbeWorld>,
                                   fates: seq<Fate>, bad: set<string>)
    requires PassOver(configs, exclude, true, first, fates, bad)
    requires forall k | 0 <= k < |first| :: Found(first[k]) == Throttled
    requires forall k | 0 <= k < |configs| :: configs[k].Key() !in bad
    ensures Barren(fates, first) && !SomeCount(fates, first) && Skipped(fates, first) == 0
  {
    forall k | 0 <= k < |fates|
      ensures !Adopts(fates[k], first[k]) && !Counts(fates[k], first[k])
    {
      assert TurnedOut(configs[k].Key(), exclude, true, first[k], fates[k], bad);
    }
    SkippedIff(fates, first);
  }

  /** The trail of a second pass, and of one whole populate attempt. */
  function RetryTrail(again: seq<Fate>, retry: seq<ProbeWorld>, ok: bool, me: nat): seq<Ledger.Step>
    requires |again| <= |retry|
  {
    [Ledger.Retry(me)] + Trail(again, retry, me) + if ok then [] else [Ledger.GiveUp(me)]
  }

  function StartTrail(fates: seq<Fate>, first: seq<ProbeWorld>, again: Option<seq<Fate>>, retry: seq<ProbeWorld>,
                      ok: bool, me: nat): seq<Ledger.Step>
    requires |fates| <= |first| && (again.Some? ==> |again.value| <= |retry|)
  {
    Trail(fates, first, me)
    + if again.Some? then RetryTrail(again.value, retry, ok, me) else if ok then [] else [Ledger.GiveUp(me)]
  }

  lemma Regroup(a: seq<Ledger.Step>, b: seq<Ledger.Step>, c: seq<Ledger.Step>)
    ensures (a + b) + c == a + (b + c)
  {
  }

  /** The steps of one worker in a history. */
  function Own(run: seq<Ledger.Step>, me: nat): seq<Ledger.Step> {
    if run == [] then []
    else Own(run[..|run| - 1], me) + if Ledger.Actor(run[|run| - 1]) == me then [run[|run| - 1]] else []
  }

  lemma OwnSnoc(run: seq<Ledger.Step>, step: Ledger.Step, me: nat)
    ensures Own(run + [step], me) == Own(run, me) + if Ledger.Actor(step) == me then [step] else []
  {
    assert (run + [step])[..|run|] == run;
  }

  lemma {:induction false} OwnOthers(run: seq<Ledger.Step>, others: seq<Ledger.Step>, me: nat)
    requires forall step | step in others :: Ledger.Actor(step) != me
    ensures Own(run + others, me) == Own(run, me)
  {
    if others == [] {
      assert run + others == run;
    } else {
      var n := |others| - 1;
      OwnOthers(run, others[..n], me);
      assert run + others == (run + others[..n]) + [others[n]];
      OwnSnoc(run + others[..n], others[n], me);
    }
  }

  // ---- the ledger ----

  /** The ledger as an object. `run` is the history of every worker's steps; the
      maps are what that history makes them. */
  class ProbeShared {
    var bad: set<string>
    var claimed: set<string>
    ghost const instances: nat
    ghost var run: seq<Ledger.Step>

    ghost predicate Valid()
      reads this
    {
      Ledger.Runnable(Ledger.Init(instances), run) && Now().bad == bad && Now().claimed == claimed
    }

    ghost function Now(): Ledger.State
      requires Ledger.Runnable(Ledger.Init(instances), run)
      reads this
    {
      Ledger.After(Ledger.Init(instances), run)
    }

    /** A fresh ledger for a new round. */
    constructor (ghost instances: nat, ghost before: seq<Ledger.Step>, ghost orders: seq<seq<string>>)
      requires Ledger.Runnable(Ledger.Init(instances), before)
      requires Ledger.Enabled(Ledger.After(Ledger.Init(instances), before), Ledger.NewRound(orders))
      ensures Valid() && this.instances == instances && run == before + [Ledger.NewRound(orders)]
    {
      this.instances := instances;
      bad, claimed := {}, {};
      run := before + [Ledger.NewRound(orders)];
      Ledger.Extend(Ledger.Init(instances), before, Ledger.NewRound(orders));
    }

    /** The other workers take any number of steps: callers know no more than this. */
    method Interfere(ghost me: nat) returns (ghost others: seq<Ledger.Step>)
      requires Valid()
      modifies this
      ensures Valid() && run == old(run) + others
      ensures forall step | step in others :: Ledger.Actor(step) != me && !step.NewRound?
    {
      others := [];
      assert run + others == run;
    }

    /** The same, as worker `me` sees it: its own record stands still. */
    method Yield(ghost me: nat)
      requires Valid() && me < |Now().workers|
      modifies this
      ensures Valid() && |Now().workers| == old(|Now().workers|) && Now().workers[me] == old(Now().workers[me])
      ensures Own(run, me) == old(Own(run, me)) && old(bad) <= bad
    {
      ghost var before := run;
      ghost var others := Interfere(me);
      OwnOthers(before, others, me);
      BadOnlyGrows(Ledger.Init(instances), before, others);
      OthersLeaveMe(Ledger.Init(instances), before, others, me);
    }

    /** A step of worker `me` that leaves the maps alone. */
    ghost method Note(step: Ledger.Step, me: nat)
      requires Valid() && Ledger.Enabled(Now(), step) && Ledger.Actor(step) == me
      requires Ledger.Apply(Now(), step).bad == bad && Ledger.Apply(Now(), step).claimed == claimed
      modifies this`run
      ensures Valid() && run == old(run) + [step] && Now() == Ledger.Apply(old(Now()), step)
      ensures Own(run, me) == old(Own(run, me)) + [step]
    {
      Ledger.Extend(Ledger.Init(instances), run, step);
      OwnSnoc(run, step, me);
      run := run + [step];
    }

    lemma WonKeyIsUnused(me: nat)
      requires Valid() && me < |Now().workers| && Now().workers[me].phase.Won?
      ensures Now().workers[me].phase.key !in Now().used
    {
      Ledger.InitInv(instances);
      Ledger.RunInv(Ledger.Init(instances), run);
      Ledger.WonKeyIsUnused(Now(), me);
    }

    /** The candidate is adopted and its claim kept. */
    ghost method Adopt(me: nat, order: seq<string>, i: nat)
      requires Valid() && Ledger.IsProbing(Now(), me) && Now().workers[me].order == order
               && Now().workers[me].phase.c.i == i
      modifies this`run
      ensures Valid() && me < |Now().workers| && Now().workers[me] == Ledger.Worker(order, Ledger.Won(order[i]))
      ensures order[i] in claimed && Own(run, me) == old(Own(run, me)) + [Ledger.Adopt(me)]
    {
      ProbedKeyIsMine(instances, run, me);
      Note(Ledger.Adopt(me), me);
    }

    method IsBad(raw: string) returns (b: bool)
      ensures b <==> raw in bad
    {
      b := raw in bad;
    }

    /** The probe proved nothing: silent, which counts as skipped, or throttled, which does not. */
    ghost method Unproven(me: nat, silent: bool)
      requires Valid() && Ledger.IsProbing(Now(), me)
      modifies this`run
      ensures Valid() && |Now().workers| == old(|Now().workers|)
      ensures Own(run, me) == old(Own(run, me)) + [if silent then Ledger.Silent(me) else Ledger.Throttled(me)]
      ensures var wk := old(Now().workers[me]);
              Now().workers[me] ==
                wk.(phase := Ledger.Releasing(if silent then Ledger.Counted(wk.phase.c) else wk.phase.c))
    {
      Note(if silent then Ledger.Silent(me) else Ledger.Throttled(me), me);
    }

    method MarkBad(ghost me: nat, raw: string)
      requires Valid() && Ledger.Enabled(Now(), Ledger.Reject(me)) && Ledger.KeyAt(Now().workers[me]) == raw
      modifies this
      ensures Valid() && run == old(run) + [Ledger.Reject(me)] && Now() == Ledger.Apply(old(Now()), Ledger.Reject(me))
      ensures bad == old(bad) + {raw} && Own(run, me) == old(Own(run, me)) + [Ledger.Reject(me)]
    {
      Ledger.Extend(Ledger.Init(instances), run, Ledger.Reject(me));
      OwnSnoc(run, Ledger.Reject(me), me);
      bad := bad + {raw};
      run := run + [Ledger.Reject(me)];
    }

    method TryClaim(ghost me: nat, raw: string) returns (ok: bool)
      requires Valid() && me < |Now().workers| && Now().workers[me].phase.Checked?
      requires Now().workers[me].phase.c.i < |Now().workers[me].order| && Ledger.KeyAt(Now().workers[me]) == raw
      modifies this
      ensures Valid() && (ok <==> raw !in old(claimed))
      ensures var step := if ok then Ledger.Claim(me) else Ledger.LoseClaim(me);
              && run == old(run) + [step] && Ledger.Enabled(old(Now()), step) && Now() == Ledger.Apply(old(Now()), step)
              && bad == old(bad) && Own(run, me) == old(Own(run, me)) + [step]
    {
      if raw in claimed {
        Note(Ledger.LoseClaim(me), me);
        return false;
      }
      Ledger.Extend(Ledger.Init(instances), run, Ledger.Claim(me));
      OwnSnoc(run, Ledger.Claim(me), me);
      claimed := claimed + {raw};
      run := run + [Ledger.Claim(me)];
      return true;
    }

    method Unclaim(ghost me: nat, raw: string)
      requires Valid() && Ledger.Enabled(Now(), Ledger.Release(me)) && Ledger.KeyAt(Now().workers[me]) == raw
      modifies this
      ensures Valid() && run == old(run) + [Ledger.Release(me)] && Now() == Ledger.Apply(old(Now()), Ledger.Release(me))
      ensures bad == old(bad) && Own(run, me) == old(Own(run, me)) + [Ledger.Release(me)]
    {
      Ledger.Extend(Ledger.Init(instances), run, Ledger.Release(me));
      OwnSnoc(run, Ledger.Release(me), me);
      claimed := claimed - {raw};
      run := run + [Ledger.Release(me)];
    }
  }

  /** What the ledger's invariant tells a worker about the key it probes. */
  lemma ProbedKeyIsMine(instances: nat, run: seq<Ledger.Step>, me: nat)
    requires Ledger.Runnable(Ledger.Init(instances), run)
    requires Ledger.IsProbing(Ledger.After(Ledger.Init(instances), run), me)
    ensures var s := Ledger.After(Ledger.Init(instances), run);
            Ledger.KeyAt(s.workers[me]) in s.claimed && Ledger.KeyAt(s.workers[me]) !in s.workers[me].phase.c.exclude
  {
    Ledger.InitInv(instances);
    Ledger.RunInv(Ledger.Init(instances), run);
    var s := Ledger.After(Ledger.Init(instances), run);
    assert Ledger.Holds(s.workers[me], Ledger.KeyAt(s.workers[me]));
  }

  /** What others do never moves a worker that is in the middle of something. */
  lemma {:induction false} OthersLeaveMe(s: Ledger.State, run: seq<Ledger.Step>, others: seq<Ledger.Step>, me: nat)
    requires Ledger.Runnable(s, run + others) && Ledger.Runnable(s, run) && me < |Ledger.After(s, run).workers|
    requires forall step | step in others :: Ledger.Actor(step) != me && !step.NewRound?
    ensures |Ledger.After(s, run + others).workers| == |Ledger.After(s, run).workers|
    ensures Ledger.After(s, run + others).workers[me] == Ledger.After(s, run).workers[me]
  {
    if others == [] {
      assert run + others == run;
    } else {
      var init := others[..|others| - 1];
      assert (run + others)[..|run + others| - 1] == run + init;
      assert (run + others)[|run + others| - 1] == others[|others| - 1];
      OthersLeaveMe(s, run, init, me);
      Ledger.OnlyActorMoves(Ledger.After(s, run + init), others[|others| - 1]);
    }
  }

  /** Within a round bad marks only accumulate. */
  lemma {:induction false} BadOnlyGrows(s: Ledger.State, run: seq<Ledger.Step>, others: seq<Ledger.Step>)
    requires Ledger.Runnable(s, run + others) && Ledger.Runnable(s, run)
    requires forall step | step in others :: !step.NewRound?
    ensures Ledger.After(s, run).bad <= Ledger.After(s, run + others).bad
  {
    if others == [] {
      assert run + others == run;
    } else {
      var init := others[..|others| - 1];
      assert (run + others)[..|run + others| - 1] == run + init;
      assert (run + others)[|run + others| - 1] == others[|others| - 1];
      BadOnlyGrows(s, run, init);
      StepKeepsBad(Ledger.After(s, run + init), others[|others| - 1]);
    }
  }

  lemma StepKeepsBad(s: Ledger.State, step: Ledger.Step)
    requires Ledger.Enabled(s, step) && !step.NewRound?
    ensures s.bad <= Ledger.Apply(s, step).bad
  {
  }

  function KeyList(pool: seq<ProxyConfig>): (keys: seq<string>)
    ensures |keys| == |pool|
  {
    seq(|pool|, i requires 0 <= i < |pool| => pool[i].Key())
  }
}
