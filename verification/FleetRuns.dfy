// What whole passes keep, told from their turns alone (v2proxy/manager.go): distinct
// active keys always, distinct keys among the children only as far as the books reach.

module FleetRuns {
  import opened Pool
  import opened Health
  import opened SelectorState
  import opened Selector
  import opened Passes
  import Recovery
  import Search

  /** Every selector consistent, and their active keys pairwise distinct. */
  ghost predicate Apart(fleet: seq<State>) {
    AllInv(fleet) && Recovery.Apart(fleet)
  }

  ghost predicate AllInv(fleet: seq<State>) {
    forall i | 0 <= i < |fleet| :: Inv(fleet[i])
  }

  // ---- what one turn may do to its instance ----

  /** The key an instance has after its turn: the old one, none, or one nobody else has;
      and its child: the old one or none, unless its index is valid. */
  ghost predicate Moves(i: nat, fleet: seq<State>, after: State)
    requires i < |fleet|
  {
    && Inv(after)
    && (ActiveKey(after).None? || ActiveKey(after) == ActiveKey(fleet[i])
        || !ServedByOther(fleet, i, ActiveKey(after).value))
    && (InRange(after) || after.live == fleet[i].live || after.live == map[])
  }

  lemma SwitchMoves(i: nat, fleet: seq<State>, c: SwitchCall, workers: nat)
    requires i < |fleet| && workers > 0 && Inv(c.before) && Kept(c, workers)
    requires c.before.live == fleet[i].live
    requires ActiveKey(c.before) == ActiveKey(fleet[i]) || ActiveKey(c.before) == None
    requires forall key | ServedByOther(fleet, i, key) && key in Keys(c.before.configs) :: key in c.exclude
    ensures Moves(i, fleet, c.after)
  {
    SwitchOutcome(c.before, c.exclude, workers, c.world, c.attempt, c.ok, c.after);
    KeyAfterSwitch(c.before, c.exclude, c.attempt.mid, c.ok, c.after);
    var pools :| c.attempt.mid == AfterRefreshes(c.before, pools);
    RefreshesKeepKeyOrDropIt(c.before, pools);
  }

  lemma CheckMoves(i: nat, w: World, t: Turn, workers: nat)
    requires i < |t.fleet| && workers > 0 && Inv(t.fleet[i])
    requires t.did.Check? && Checked(i, w, t) && AllKept(t.made, workers)
    ensures Moves(i, t.fleet, t.after)
  {
    CheckKeeps(t.fleet[i], t.did.e, w.now);
    if t.made != [] {
      assert Kept(t.made[0], workers);
      SwitchMoves(i, t.fleet, t.made[0], workers);
    }
  }

  /** Beyond the books a check changes nothing. */
  lemma CheckKeeps(s: State, e: Evidence, now: nat)
    ensures var t := HealthChecked(s, e, now).0;
            && t.configs == s.configs && t.activeIndex == s.activeIndex && t.handle == s.handle && t.live == s.live
            && ActiveKey(t) == ActiveKey(s) && (Inv(s) ==> Inv(t))
  {
  }

  lemma RefreshMoves(i: nat, pool: seq<ProxyConfig>, w: World, t: Turn, workers: nat)
    requires i < |t.fleet| && workers > 0 && Inv(t.fleet[i])
    requires t.did.Refresh? && Renewed(i, pool, w, t) && AllKept(t.made, workers)
    ensures Moves(i, t.fleet, t.after)
  {
    RefreshedInv(t.fleet[i], pool);
    if t.did.how.Some? {
      var fleet := t.fleet[i := Refreshed(t.fleet[i], pool)];
      ReconcileMoves(i, fleet, ActiveConfig(t.fleet[i]), w, t, workers);
      OthersUnmoved(i, t.fleet, fleet);
    }
  }

  lemma ReconcileMoves(i: nat, fleet: seq<State>, prev: Option<ProxyConfig>, w: World, t: Turn, workers: nat)
    requires i < |fleet| && workers > 0 && Inv(fleet[i])
    requires prev.Some? ==> forall pid | pid in fleet[i].live :: fleet[i].live[pid].Key() == prev.value.Key()
    requires t.did.Refresh? && t.did.how.Some? && AllKept(t.made, workers)
    requires Reconciled(i, fleet, prev, w, t.did.e, t.was, t.did.how.value, t.made, t.after, t.status)
    ensures Moves(i, fleet, t.after)
  {
    var how := t.did.how.value;
    match how.act
    case RetainedPrevious =>
      RetainedInv(fleet[i], prev.value);
    case SwitchedVanished =>
      assert Kept(t.made[0], workers);
      SwitchMoves(i, fleet, t.made[0], workers);
    case Rotated(to) =>
      assert Kept(t.made[0], workers);
      RotationMoves(i, fleet, w, t, how, to, true, workers);
    case RotationFailed(to) =>
      assert Kept(t.made[0], workers);
      RotationMoves(i, fleet, w, t, how, to, false, workers);
    case Untouched =>
  }

  lemma RotationMoves(i: nat, fleet: seq<State>, w: World, t: Turn, how: Reconcile, to: string, ok: bool, workers: nat)
    requires i < |fleet| && workers > 0 && Inv(fleet[i])
    requires |t.made| == 1 && Kept(t.made[0], workers)
    requires t.did.Refresh? && RotatedTo(i, fleet, w, t.did.e, t.was, how, to, ok, t.made, t.after, t.status)
    ensures Moves(i, fleet, t.after)
  {
    RotationAvoidsOthers(i, fleet, w, how, to);
    SwitchMoves(i, fleet, t.made[0], workers);
  }

  lemma OthersUnmoved(i: nat, fleet: seq<State>, next: seq<State>)
    requires i < |fleet| == |next| && next == fleet[i := next[i]]
    ensures forall key :: ServedByOther(fleet, i, key) <==> ServedByOther(next, i, key)
  {
    forall key
      ensures ServedByOther(fleet, i, key) <==> ServedByOther(next, i, key)
    {
      assert forall j | 0 <= j < |fleet| && j != i :: ActiveKey(fleet[j]) == ActiveKey(next[j]);
    }
  }

  /** A rotation may go to one key only, and nobody else serves it. */
  lemma RotationAvoidsOthers(i: nat, fleet: seq<State>, w: World, how: Reconcile, to: string)
    requires i < |fleet| && Taken(how.avoided, fleet, i)
    requires Chosen(fleet[i].configs, fleet[i].latency, w, how.avoided, how.probes, to)
    ensures forall key | ServedByOther(fleet, i, key) && key in Keys(fleet[i].configs) ::
            key in Keys(fleet[i].configs) - {to}
  {
    FreshIsFromPool(fleet[i].configs, how.avoided, how.probes - 1);
  }

  lemma MovesKeepApart(i: nat, fleet: seq<State>, after: State)
    requires i < |fleet| && Apart(fleet) && Moves(i, fleet, after)
    ensures Apart(fleet[i := after])
  {
    forall j | 0 <= j < |fleet| && j != i
      ensures !Recovery.SameKey(fleet[j], after) && !Recovery.SameKey(after, fleet[j])
    {
      assert !Recovery.SameKey(fleet[j], fleet[i]);
    }
  }

  // ---- the children's keys ----

  /** No two children, of whichever selectors, run the same key. */
  predicate ChildrenApart(fleet: seq<State>) {
    forall i, j, p, q | 0 <= i < |fleet| && 0 <= j < |fleet| && i != j && p in fleet[i].live && q in fleet[j].live ::
      fleet[i].live[p].Key() != fleet[j].live[q].Key()
  }

  /** A child whose selector has lost its index: nobody else can see what it runs. */
  predicate HiddenRuns(s: State, key: string) {
    !InRange(s) && exists p :: p in s.live && s.live[p].Key() == key
  }

  /** The child that a turn leaves, if any, runs no key of another selector's hidden child. */
  predicate ClearOfHidden(i: nat, fleet: seq<State>, after: State) {
    forall j, p | 0 <= j < |fleet| && j != i && p in after.live :: !HiddenRuns(fleet[j], after.live[p].Key())
  }

  /** One turn keeps the children's keys apart if and only if the child it leaves does
      not run what a hidden child of another selector runs. */
  lemma ChildrenStayApartIff(i: nat, fleet: seq<State>, after: State)
    requires i < |fleet| && Apart(fleet) && ChildrenApart(fleet) && Moves(i, fleet, after)
    ensures ChildrenApart(fleet[i := after]) <==> ClearOfHidden(i, fleet, after)
  {
    MovesKeepApart(i, fleet, after);
    var next := fleet[i := after];
    if ChildrenApart(next) {
      forall j, p | 0 <= j < |fleet| && j != i && p in after.live
        ensures !HiddenRuns(fleet[j], after.live[p].Key())
      {
        forall q | q in fleet[j].live
          ensures after.live[p].Key() != fleet[j].live[q].Key()
        {
          assert p in next[i].live && q in next[j].live;
        }
      }
    }
    if ClearOfHidden(i, fleet, after) {
      forall j, p, q | 0 <= j < |fleet| && j != i && p in after.live && q in fleet[j].live
        ensures after.live[p].Key() != fleet[j].live[q].Key()
      {
        ChildOfOther(i, fleet, after, j, p, q);
      }
    }
  }

  lemma ChildOfOther(i: nat, fleet: seq<State>, after: State, j: nat, p: nat, q: nat)
    requires i < |fleet| && Apart(fleet) && ChildrenApart(fleet) && Moves(i, fleet, after)
    requires Apart(fleet[i := after]) && ClearOfHidden(i, fleet, after)
    requires j < |fleet| && j != i && p in after.live && q in fleet[j].live
    ensures after.live[p].Key() != fleet[j].live[q].Key()
  {
    assert !HiddenRuns(fleet[j], after.live[p].Key());
    if InRange(fleet[j]) && InRange(after) {
      assert !Recovery.SameKey(fleet[i := after][i], fleet[i := after][j]);
    }
  }

  // ---- over a whole pass ----

  /** A pass told from its turns: each finds the fleet as those before it left it. */
  ghost predicate Pass(turns: seq<Turn>, before: seq<State>) {
    |turns| <= |before|
    && forall k | 0 <= k < |turns| :: Moves(k, Midway(turns, before, k), turns[k].after)
  }

  lemma NextMidway(turns: seq<Turn>, before: seq<State>, k: nat)
    requires k < |turns| <= |before|
    ensures Midway(turns, before, k + 1) == Midway(turns, before, k)[k := turns[k].after]
  {
  }

  /** Every fleet along a pass has distinct active keys. */
  lemma {:induction false} PassKeepsApart(turns: seq<Turn>, before: seq<State>, k: nat)
    requires Apart(before) && Pass(turns, before) && k <= |turns|
    ensures Apart(Midway(turns, before, k))
  {
    if k == 0 {
      assert Midway(turns, before, 0) == before;
    } else {
      PassKeepsApart(turns, before, k - 1);
      NextMidway(turns, before, k - 1);
      MovesKeepApart(k - 1, Midway(turns, before, k - 1), turns[k - 1].after);
    }
  }

  predicate AllClear(turns: seq<Turn>, before: seq<State>, k: nat)
    requires k <= |turns| <= |before|
  {
    forall j | 0 <= j < k :: ClearOfHidden(j, Midway(turns, before, j), turns[j].after)
  }

  predicate ApartSoFar(turns: seq<Turn>, before: seq<State>, k: nat)
    requires k <= |turns| <= |before|
  {
    forall j | 0 <= j <= k :: ChildrenApart(Midway(turns, before, j))
  }

  /** The children's keys stay apart all along a pass if and only if every turn leaves a
      child that is clear of the hidden ones. */
  lemma {:induction false} PassKeepsChildrenApartIff(turns: seq<Turn>, before: seq<State>, k: nat)
    requires Apart(before) && ChildrenApart(before) && Pass(turns, before) && k <= |turns|
    ensures ApartSoFar(turns, before, k) <==> AllClear(turns, before, k)
  {
    if k == 0 {
      assert Midway(turns, before, 0) == before;
    } else {
      PassKeepsChildrenApartIff(turns, before, k - 1);
      PassKeepsApart(turns, before, k - 1);
      NextMidway(turns, before, k - 1);
      if ApartSoFar(turns, before, k - 1) {
        ChildrenStayApartIff(k - 1, Midway(turns, before, k - 1), turns[k - 1].after);
      }
    }
  }

  /** A pass of health checks is such a pass ... */
  lemma HealthPass(worlds: seq<World>, seen: seq<Evidence>, turns: seq<Turn>, before: seq<State>, was: seq<Status>,
                   workers: nat)
    requires AllChecked(worlds, seen, turns, before, was, workers) && AllInv(before)
    ensures Pass(turns, before)
  {
    forall k: nat | k < |turns|
      ensures Moves(k, Midway(turns, before, k), turns[k].after)
    {
      assert CheckedRight(k, worlds, seen, turns, before, was, workers);
      CheckMoves(k, worlds[k], turns[k], workers);
    }
  }

  /** ... and so is a refresh. */
  lemma RefreshPass(pools: seq<seq<ProxyConfig>>, worlds: seq<World>, seen: seq<Evidence>, turns: seq<Turn>,
                    before: seq<State>, was: seq<Status>, workers: nat)
    requires AllRenewed(pools, worlds, seen, turns, before, was, workers) && AllInv(before)
    ensures Pass(turns, before)
  {
    forall k: nat | k < |turns|
      ensures Moves(k, Midway(turns, before, k), turns[k].after)
    {
      assert RenewedRight(k, pools, worlds, seen, turns, before, was, workers);
      RefreshMoves(k, pools[k], worlds[k], turns[k], workers);
    }
  }

  // ---- a hidden child, and a peer that adopts its key ----

  /** The world of the run below: whatever is started comes up. */
  function ComesUp(): World {
    var works := HealthResult(true, false, 204, 0, "");
    World(false, works, 0, true, c => works, n => true, SwapWorld(Spawned(3), true, works, LaunchFails, 0), 0)
  }

  /** Serving position `index` under `pid`, with one strike against it. */
  function OneStrike(pool: seq<ProxyConfig>, index: nat, pid: nat): (s: State)
    requires index < |pool|
    ensures Inv(s)
  {
    NewSelector().(configs := pool, activeIndex := index, failCount := 1, handle := Some(pid),
                   live := map[pid := pool[index]])
  }

  /** An instance whose upstream is gone from the new pool, which has but one config.
      Nobody else serves that config: the instance switches to it. */
  lemma SwitchesToOnly(i: nat, fleet: seq<State>, c: ProxyConfig) returns (t: Turn)
    requires i < |fleet| && Inv(fleet[i]) && ActiveKey(fleet[i]) != Some(c.Key()) && fleet[i].failCount > 0
    requires !ServedByOther(fleet, i, c.Key())
    requires forall j | 0 <= j < |fleet| && j != i :: ActiveKey(fleet[j]).None?
    ensures t.fleet == fleet && t.was == Ok && t.status == Ok && t.did.Refresh? && t.did.e.Traffic?
    ensures Renewed(i, [c], ComesUp(), t) && AllKept(t.made, 1)
    ensures t.after.configs == [c] && t.after.activeIndex == 0 && t.after.live == map[3 := c] && Inv(t.after)
  {
    var s := Refreshed(fleet[i], [c]);
    RefreshedInv(fleet[i], [c]);
    var search := Search.OneProbeWins(0);
    var w := ComesUp().swap;
    assert c in [c];
    SwappedOutcome(s, c.Key(), 0, "", w);
    var after := Swapped(s, c.Key(), 0, "", w).0;
    var a := Attempt(s, [0], search, Some(0), 0);
    assert s == AfterRefreshes(s, []);
    assert Searched(1, 1, search, Some(0));
    var call := SwitchCall(i, {}, w, s, a, true, after);
    t := Turn(fleet, Ok, Refresh(Traffic, Some(Reconcile(SwitchedVanished, {}, 0))), [call], after, Ok);
    assert ExactlyOthers({}, fleet[i := s], i);
    assert Kept(call, 1);
  }

  /** The same, but a peer serves that config: there is nothing to switch to. The child
      goes on with the old upstream, and no index tells of it. */
  lemma NowhereToGo(i: nat, fleet: seq<State>, c: ProxyConfig) returns (t: Turn)
    requires i < |fleet| && Inv(fleet[i]) && ActiveKey(fleet[i]) != Some(c.Key()) && fleet[i].failCount > 0
    requires ServedByOther(fleet, i, c.Key())
    requires forall j | 0 <= j < |fleet| && j != i :: ActiveKey(fleet[j]) == Some(c.Key())
    ensures t.fleet == fleet && t.was == Ok && t.status == Down && t.did.Refresh? && t.did.e.Traffic?
    ensures Renewed(i, [c], ComesUp(), t) && AllKept(t.made, 1)
    ensures t.after == fleet[i].(configs := [c], activeIndex := -1)
  {
    var s := Refreshed(fleet[i], [c]);
    var call := SwitchCall(i, {c.Key()}, ComesUp().swap, s, Attempt(s, [], [], None, 0), false, s);
    t := Turn(fleet, Ok, Refresh(Traffic, Some(Reconcile(SwitchedVanished, {}, 0))), [call], s, Down);
    assert s == AfterRefreshes(s, []);
    OthersUnmoved(i, fleet, fleet[i := s]);
    assert ExactlyOthers({c.Key()}, fleet[i := s], i);
    assert Kept(call, 1);
  }

  /** One whose upstream is that config keeps it, untouched. */
  lemma StaysPut(i: nat, fleet: seq<State>, c: ProxyConfig) returns (t: Turn)
    requires i < |fleet| && ActiveKey(fleet[i]) == Some(c.Key()) && c.Key() != ""
    ensures t.fleet == fleet && t.was == Ok && t.status == Ok && t.did.Refresh? && t.did.e.Traffic?
    ensures Renewed(i, [c], ComesUp(), t) && AllKept(t.made, 1)
    ensures t.after == fleet[i].(configs := [c], activeIndex := 0)
  {
    assert c in [c];
    var s := Refreshed(fleet[i], [c]);
    t := Turn(fleet, Ok, Refresh(Traffic, Some(Reconcile(Untouched, {}, 0))), [], s, Ok);
  }

  /** Two turns make a refresh of a fleet of two. */
  lemma TwoTurns(c: ProxyConfig, turns: seq<Turn>, before: seq<State>, was: seq<Status>)
    requires |turns| == |before| == |was| == 2
    requires turns[0].fleet == before && turns[1].fleet == before[0 := turns[0].after]
    requires turns[0].was == was[0] && turns[1].was == was[1]
    requires turns[0].did.Refresh? && turns[0].did.e == Traffic && Renewed(0, [c], ComesUp(), turns[0])
    requires turns[1].did.Refresh? && turns[1].did.e == Traffic && Renewed(1, [c], ComesUp(), turns[1])
    requires AllKept(turns[0].made, 1) && AllKept(turns[1].made, 1)
    ensures AllRenewed([[c], [c]], [ComesUp(), ComesUp()], [Traffic, Traffic], turns, before, was, 1)
    ensures Midway(turns, before, 2) == [turns[0].after, turns[1].after]
    ensures Marked(turns, was) == [turns[0].status, turns[1].status]
  {
    assert Midway(turns, before, 0) == before;
    assert Midway(turns, before, 1) == before[0 := turns[0].after];
    forall k: nat | k < 2
      ensures RenewedRight(k, [[c], [c]], [ComesUp(), ComesUp()], [Traffic, Traffic], turns, before, was, 1)
    {
    }
  }

  /** The pool shrinks to m: instance 0 loses its index and keeps its child. */
  lemma ChildIsHidden(k: ProxyConfig, m: ProxyConfig) returns (turns: seq<Turn>)
    requires k.Key() != m.Key() && k.Key() != "" && m.Key() != ""
    ensures |turns| == 2
    ensures var before := [OneStrike([k, m], 0, 1), OneStrike([k, m], 1, 2)];
            && AllRenewed([[m], [m]], [ComesUp(), ComesUp()], [Traffic, Traffic], turns, before, [Ok, Ok], 1)
            && Midway(turns, before, 2) == [before[0].(configs := [m], activeIndex := -1), OneStrike([m], 0, 2)]
            && Marked(turns, [Ok, Ok]) == [Down, Ok]
  {
    var before := [OneStrike([k, m], 0, 1), OneStrike([k, m], 1, 2)];
    assert ActiveKey(before[1]) == Some(m.Key());
    assert ServedByOther(before, 0, m.Key());
    var t0 := NowhereToGo(0, before, m);
    var t1 := StaysPut(1, before[0 := t0.after], m);
    turns := [t0, t1];
    TwoTurns(m, turns, before, [Ok, Ok]);
  }

  /** The pool becomes k: instance 1 adopts what instance 0's hidden child runs. */
  lemma HiddenKeyIsTaken(k: ProxyConfig, m: ProxyConfig) returns (turns: seq<Turn>)
    requires k.Key() != m.Key() && k.Key() != "" && m.Key() != ""
    ensures |turns| == 2
    ensures var before := [OneStrike([k, m], 0, 1).(configs := [m], activeIndex := -1), OneStrike([m], 0, 2)];
            && AllRenewed([[k], [k]], [ComesUp(), ComesUp()], [Traffic, Traffic], turns, before, [Down, Ok], 1)
            && var end := Midway(turns, before, 2);
               Apart(end) && !ChildrenApart(end) && HiddenRuns(end[0], k.Key()) && ActiveKey(end[1]) == Some(k.Key())
  {
    var before := [OneStrike([k, m], 0, 1).(configs := [m], activeIndex := -1), OneStrike([m], 0, 2)];
    var t0 := Turn(before, Down, Refresh(Traffic, None), [], Refreshed(before[0], [k]), Down);
    var t1 := SwitchesToOnly(1, before[0 := t0.after], k);
    turns := [t0, t1];
    TwoTurns(k, turns, before, [Down, Ok]);
    assert 1 in t0.after.live && 3 in t1.after.live;
  }

  /** From a healthy fleet of two, through two refreshes whose pools each hold one
      upstream: the first takes instance 0's index away and leaves its child; the second
      brings that child's upstream back, and instance 1, which can see no owner, adopts
      it. No two active keys are ever the same, but two children run one upstream. */
  lemma HiddenChildIsAdopted(k: ProxyConfig, m: ProxyConfig)
    returns (before: seq<State>, first: seq<Turn>, second: seq<Turn>)
    requires k.Key() != m.Key() && k.Key() != "" && m.Key() != ""
    ensures |before| == |first| == |second| == 2 && Apart(before) && ChildrenApart(before)
    ensures forall i | 0 <= i < 2 :: InRange(before[i]) && |before[i].live| == 1
    ensures AllRenewed([[m], [m]], [ComesUp(), ComesUp()], [Traffic, Traffic], first, before, [Ok, Ok], 1)
    ensures AllRenewed([[k], [k]], [ComesUp(), ComesUp()], [Traffic, Traffic], second, Midway(first, before, 2),
                       Marked(first, [Ok, Ok]), 1)
    ensures var end := Midway(second, Midway(first, before, 2), 2);
            Apart(end) && !ChildrenApart(end) && HiddenRuns(end[0], k.Key()) && ActiveKey(end[1]) == Some(k.Key())
  {
    before := [OneStrike([k, m], 0, 1), OneStrike([k, m], 1, 2)];
    first := ChildIsHidden(k, m);
    second := HiddenKeyIsTaken(k, m);
  }

  // ---- a rotation that strands its instance ----

  /** Idle, slow by a measurement just taken, with a candidate that answers in
      `latency`; but nothing that is started on the real port comes up. */
  function Stranding(latency: nat): World {
    var works := HealthResult(true, false, 204, latency, "");
    World(false, works, 0, true, c => works, n => true, SwapWorld(LaunchFails, false, works, LaunchFails, 0), 0)
  }

  function SlowOn(slow: ProxyConfig, fast: ProxyConfig): (s: State)
    ensures Inv(s) && InRange(s) && s.live != map[]
  {
    var s := NewSelector().(configs := [slow, fast], activeIndex := 0, handle := Some(1), live := map[1 := slow],
                            latency := 2500, lastProbe := Some(0));
    assert 1 in s.live;
    s
  }

  lemma TwoKeys(slow: ProxyConfig, fast: ProxyConfig)
    requires slow.Key() != fast.Key()
    ensures Keys([slow, fast]) == {slow.Key(), fast.Key()}
    ensures Fresh([slow, fast], {slow.Key()}) == [fast]
  {
    assert slow in [slow, fast] && fast in [slow, fast];
    assert [slow, fast][..1] == [slow] && [slow][..0] == [];
    assert Fresh([slow], {slow.Key()}) == [];
  }

  /** Everything the code asks for before it rotates is there ... */
  lemma RotationIsDue(slow: ProxyConfig, fast: ProxyConfig, latency: nat)
    requires slow.Key() != fast.Key() && latency * 10 < ROTATE_SLOW_LATENCY * 7
    ensures var s, w := SlowOn(slow, fast), Stranding(latency);
            && IdleAndSlow(s, Probe(w.health), w) && Scanned(s, Probe(w.health), w) == s
            && Taken({slow.Key()}, [s], 0)
            && Chosen(s.configs, s.latency, w, {slow.Key()}, 1, fast.Key())
            && ActiveKey(s).Some? && Keys(s.configs) - {fast.Key()} == {slow.Key()}
  {
    TwoKeys(slow, fast);
  }

  lemma SwapStrands(slow: ProxyConfig, fast: ProxyConfig, latency: nat)
    requires slow.Key() != fast.Key()
    ensures var (after, ok) := Swapped(SlowOn(slow, fast), fast.Key(), latency, slow.Key(), Stranding(latency).swap);
            !ok && after.live == map[] && ActiveKey(after) == Some(slow.Key())
  {
    TwoKeys(slow, fast);
    SwappedOutcome(SlowOn(slow, fast), fast.Key(), latency, slow.Key(), Stranding(latency).swap);
  }

  /** ... and the one switch it makes leaves no child. */
  lemma SwitchStrands(slow: ProxyConfig, fast: ProxyConfig, latency: nat) returns (a: Attempt, after: State)
    requires slow.Key() != fast.Key() && slow.Key() != ""
    ensures Switched(SlowOn(slow, fast), {slow.Key()}, 1, Stranding(latency).swap, a, false, after)
    ensures after.live == map[] && ActiveKey(after) == Some(slow.Key())
  {
    var s := SlowOn(slow, fast);
    var search := Search.OneProbeWins(latency);
    SwapStrands(slow, fast, latency);
    a := Attempt(s, [1], search, Some(0), latency);
    after := Swapped(s, fast.Key(), latency, slow.Key(), Stranding(latency).swap).0;
    assert s == AfterRefreshes(s, []);
    assert Searched(1, 1, search, Some(0));
    assert Candidates(s, {slow.Key()}, [1]);
    assert WinKey(s, a) == Some(fast.Key());
  }

  lemma RotationFails(s: State, prev: Option<ProxyConfig>, w: World, e: Evidence, how: Reconcile, to: string,
                      a: Attempt, after: State)
    returns (made: seq<SwitchCall>)
    requires Inv(s) && ActiveKey(s).Some? && how.act == RotationFailed(to) && how.probes <= ROTATE_MAX_CANDIDATES
    requires IdleAndSlow(s, e, w) && Scanned(s, e, w) == s && Taken(how.avoided, [s], 0)
    requires Chosen(s.configs, s.latency, w, how.avoided, how.probes, to)
    requires Switched(s, Keys(s.configs) - {to}, 1, w.swap, a, false, after)
    ensures |made| == 1 && made[0].after == after && AllKept(made, 1)
    ensures Reconciled(0, [s], prev, w, e, Ok, how, made, after, Ok)
  {
    made := [SwitchCall(0, Keys(s.configs) - {to}, w.swap, s, a, false, after)];
    assert Kept(made[0], 1);
    KeptIsFromWorld(made, 1, 0);
  }

  /** A rotation can take a serving instance's child and leave none: the candidate that
      proved faster does not start on the real port, and neither does the old upstream
      again. The status stays ok. */
  lemma RotationCanStrand(slow: ProxyConfig, fast: ProxyConfig, latency: nat)
    returns (how: Reconcile, made: seq<SwitchCall>)
    requires slow.Key() != fast.Key() && slow.Key() != "" && latency * 10 < ROTATE_SLOW_LATENCY * 7
    ensures |made| == 1 && AllKept(made, 1) && how.act == RotationFailed(fast.Key())
    ensures var s, w, after := SlowOn(slow, fast), Stranding(latency), made[0].after;
            && Reconciled(0, [s], Some(slow), w, Probe(w.health), Ok, how, made, after, Ok)
            && s.live != map[] && after.live == map[] && ActiveKey(after) == Some(slow.Key())
  {
    var s, w := SlowOn(slow, fast), Stranding(latency);
    RotationIsDue(slow, fast, latency);
    var a, after := SwitchStrands(slow, fast, latency);
    how := Reconcile(RotationFailed(fast.Key()), {slow.Key()}, 1);
    made := RotationFails(s, Some(slow), w, Probe(w.health), how, fast.Key(), a, after);
  }
}
