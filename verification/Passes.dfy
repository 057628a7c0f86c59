// What the manager's passes do to a fleet of selectors (v2proxy/manager.go), as values:
// health checks, subscription refreshes, and the switches they make.

module Passes {
  import opened Pool
  import opened Health
  import opened SelectorState
  import opened Selector
  import Egress

  const ROTATE_SLOW_LATENCY := 2500
  const ROTATE_MAX_CANDIDATES := 3
  const ROTATE_LATENCY_MAX_AGE := 180_000

  datatype Status = Starting | Ok | Down

  /** The outside world as one pass over one instance meets it. */
  datatype World = World(
    due: bool,                            // ShouldCheck
    health: HealthResult,                 // what a health probe would say
    sockets: nat, socketsKnown: bool,     // the socket scan
    probe: ProxyConfig -> HealthResult,   // what a throwaway probe would say
    budgetLeft: nat -> bool,              // rotation budget before the n-th candidate
    swap: SwapWorld,
    now: nat)

  /** What a reconcile pass did. */
  datatype Action = Untouched | RetainedPrevious | SwitchedVanished | Rotated(to: string) | RotationFailed(to: string)

  /** One switch the manager asked an instance for, how it went, and what came of it. */
  datatype SwitchCall = SwitchCall(i: nat, exclude: set<string>, world: SwapWorld, before: State, attempt: Attempt,
                                   ok: bool, after: State)

  /** It kept every promise a switch makes. */
  ghost predicate Kept(c: SwitchCall, workers: nat)
    requires workers > 0
  {
    Switched(c.before, c.exclude, workers, c.world, c.attempt, c.ok, c.after)
  }

  ghost predicate AllKept(calls: seq<SwitchCall>, workers: nat)
    requires workers > 0
  {
    forall k {:trigger Kept(calls[k], workers)} | 0 <= k < |calls| :: Kept(calls[k], workers)
  }

  /** A switch told from its world: when it succeeds, and when it leaves no child. */
  predicate FromWorld(c: SwitchCall) {
    && (c.ok <==> Reanchored(c.before, c.attempt) && WinnerComesUp(c.world))
    && (c.after.live == map[] <==> LeavesNoChild(c.before, c.world, c.attempt))
    && (!Reanchored(c.before, c.attempt) ==> c.after.live == c.before.live)
  }

  lemma KeptIsFromWorld(calls: seq<SwitchCall>, workers: nat, k: nat)
    requires workers > 0 && k < |calls| && AllKept(calls, workers) && Inv(calls[k].before)
    ensures FromWorld(calls[k])
  {
    var c := calls[k];
    assert Kept(calls[k], workers);
    SwitchOutcome(c.before, c.exclude, workers, c.world, c.attempt, c.ok, c.after);
    var pools :| c.attempt.mid == AfterRefreshes(c.before, pools);
    RefreshesKeepKeyOrDropIt(c.before, pools);
  }

  // ---- slow rotation: which candidate ----

  /** The configs whose key is not to be avoided, in pool order. */
  function Fresh(configs: seq<ProxyConfig>, avoided: set<string>): seq<ProxyConfig> {
    if configs == [] then []
    else
      var c := configs[|configs| - 1];
      Fresh(configs[..|configs| - 1], avoided) + if c.Key() in avoided then [] else [c]
  }

  lemma {:induction false} FreshPrefix(configs: seq<ProxyConfig>, k: nat, avoided: set<string>)
    requires k <= |configs|
    ensures Fresh(configs[..k], avoided) <= Fresh(configs, avoided)
    decreases |configs| - k
  {
    if k == |configs| {
      assert configs[..k] == configs;
    } else {
      assert configs[..k + 1][..k] == configs[..k];
      FreshPrefix(configs, k + 1, avoided);
    }
  }

  lemma {:induction false} FreshIsFromPool(configs: seq<ProxyConfig>, avoided: set<string>, k: nat)
    requires k < |Fresh(configs, avoided)|
    ensures Fresh(configs, avoided)[k] in configs && Fresh(configs, avoided)[k].Key() !in avoided
  {
    var n := |configs| - 1;
    if k < |Fresh(configs[..n], avoided)| {
      FreshIsFromPool(configs[..n], avoided, k);
    }
  }

  /** Config k is either to be avoided or the next of the fresh ones. */
  lemma NextFresh(configs: seq<ProxyConfig>, k: nat, avoided: set<string>, tried: nat)
    requires k < |configs| && tried <= |Fresh(configs, avoided)|
    requires Fresh(configs[..k], avoided) == Fresh(configs, avoided)[..tried]
    ensures var all := Fresh(configs, avoided);
            if configs[k].Key() in avoided then Fresh(configs[..k + 1], avoided) == all[..tried]
            else tried < |all| && all[tried] == configs[k] && Fresh(configs[..k + 1], avoided) == all[..tried + 1]
  {
    assert configs[..k + 1][..k] == configs[..k];
    FreshPrefix(configs, k + 1, avoided);
    var all, next := Fresh(configs, avoided), Fresh(configs[..k + 1], avoided);
    assert next == all[..|next|];
    if configs[k].Key() !in avoided {
      assert |next| == tried + 1 && next[tried] == configs[k];
    }
  }

  /** A decisive win: at least 30% faster than the active upstream. */
  predicate Faster(c: ProxyConfig, w: World, latency: nat) {
    w.probe(c).working && w.probe(c).latency * 10 < latency * 7
  }

  predicate InBudget(w: World, n: nat) {
    n <= ROTATE_MAX_CANDIDATES && forall k | 0 <= k < n :: w.budgetLeft(k)
  }

  /** The first of the few fresh candidates that is decisively faster, reached in budget. */
  predicate Chosen(configs: seq<ProxyConfig>, latency: nat, w: World, avoided: set<string>, probes: nat, to: string) {
    var choices := Fresh(configs, avoided);
    && 0 < probes <= |choices| && InBudget(w, probes)
    && choices[probes - 1].Key() == to && Faster(choices[probes - 1], w, latency)
    && forall k | 0 <= k < probes - 1 :: !Faster(choices[k], w, latency)
  }

  predicate NoneFaster(configs: seq<ProxyConfig>, latency: nat, w: World, avoided: set<string>) {
    var choices := Fresh(configs, avoided);
    forall k: nat | k < |choices| && InBudget(w, k + 1) :: !Faster(choices[k], w, latency)
  }

  /** The first k configs have been gone through: `tried` of them were probed, none faster. */
  predicate Sifted(configs: seq<ProxyConfig>, k: nat, latency: nat, w: World, avoided: set<string>, tried: nat)
    requires k <= |configs|
  {
    var all := Fresh(configs, avoided);
    && tried <= |all| && Fresh(configs[..k], avoided) == all[..tried] && InBudget(w, tried)
    && forall j | 0 <= j < tried :: !Faster(all[j], w, latency)
  }

  lemma SiftNext(configs: seq<ProxyConfig>, k: nat, latency: nat, w: World, avoided: set<string>, tried: nat)
    requires k < |configs| && Sifted(configs, k, latency, w, avoided, tried)
    requires tried < ROTATE_MAX_CANDIDATES && w.budgetLeft(tried)
    ensures var c := configs[k];
            if c.Key() in avoided then Sifted(configs, k + 1, latency, w, avoided, tried)
            else if Faster(c, w, latency)
            then Chosen(configs, latency, w, avoided, tried + 1, c.Key()) && Fresh(configs, avoided)[tried] == c
            else Sifted(configs, k + 1, latency, w, avoided, tried + 1)
  {
    NextFresh(configs, k, avoided, tried);
  }

  /** The loop may stop when it has tried its few, run out of budget or of candidates. */
  lemma NothingFaster(configs: seq<ProxyConfig>, latency: nat, w: World, avoided: set<string>, tried: nat)
    requires tried <= |Fresh(configs, avoided)|
    requires forall k | 0 <= k < tried :: !Faster(Fresh(configs, avoided)[k], w, latency)
    requires tried >= ROTATE_MAX_CANDIDATES || !w.budgetLeft(tried) || tried == |Fresh(configs, avoided)|
    ensures NoneFaster(configs, latency, w, avoided)
  {
  }

  // ---- passes over the fleet ----

  /** How one instance was reconciled with its new pool: what was done, which keys a
      rotation kept off, and how many throwaway probes it took. */
  datatype Reconcile = Reconcile(act: Action, avoided: set<string>, probes: nat)

  /** What a pass does to one instance in its turn. */
  datatype Did = Check(e: Evidence) | Refresh(e: Evidence, how: Option<Reconcile>)

  /** One instance's turn: the whole fleet as the turn found it, what was done and by
      which switches, what the instance became. */
  datatype Turn = Turn(fleet: seq<State>, was: Status, did: Did, made: seq<SwitchCall>, after: State, status: Status)

  predicate ServedByOther(fleet: seq<State>, i: nat, key: string) {
    exists j :: 0 <= j < |fleet| && j != i && ActiveKey(fleet[j]) == Some(key)
  }

  /** A due health check either passes and changes only the books, or ends in one
      switch that avoids exactly what the others then served, and whose outcome is the
      new status. */
  ghost predicate Checked(i: nat, w: World, t: Turn)
    requires i < |t.fleet| && t.did.Check?
  {
    var (s, healthy) := HealthChecked(t.fleet[i], t.did.e, w.now);
    if !w.due then t.after == t.fleet[i] && t.status == t.was && t.made == []
    else if healthy then t.after == s && t.status == Ok && t.made == []
    else
      && (t.status == Ok || t.status == Down) && |t.made| == 1
      && var c := t.made[0];
         && c.i == i && c.world == w.swap && c.before == s && (c.ok <==> t.status == Ok) && c.after == t.after
         && ExactlyOthers(c.exclude, t.fleet, i)
  }

  // ---- what a refresh does to one instance ----

  /** Idle by bytes, idle by sockets, and slow by a fresh measurement. */
  predicate IdleAndSlow(s: State, e: Evidence, w: World) {
    && !e.Traffic?
    && !Egress.Guarded(s.unproven, w.sockets, w.socketsKnown, w.now).1
    && s.lastProbe.Some? && w.now - s.lastProbe.value <= ROTATE_LATENCY_MAX_AGE
    && s.latency >= ROTATE_SLOW_LATENCY
  }

  /** Asking for that: the sockets are only scanned if there was no traffic. */
  function Scanned(s: State, e: Evidence, w: World): State {
    if e.Traffic? then s
    else s.(unproven := Egress.Guarded(s.unproven, w.sockets, w.socketsKnown, w.now).0)
  }

  /** Vanished but healthy, and nobody took it meanwhile: worth keeping. */
  predicate WorthKeeping(i: nat, fleet: seq<State>, prev: Option<ProxyConfig>)
    requires i < |fleet|
  {
    prev.Some? && fleet[i].failCount == 0 && !ServedByOther(fleet, i, prev.value.Key())
  }

  ghost predicate ExactlyOthers(keys: set<string>, fleet: seq<State>, i: nat) {
    forall key :: key in keys <==> ServedByOther(fleet, i, key)
  }

  /** What a rotation must not move to: the other instances' keys and its own. */
  ghost predicate Taken(keys: set<string>, fleet: seq<State>, i: nat)
    requires i < |fleet|
  {
    forall key :: key in keys <==> ServedByOther(fleet, i, key) || ActiveKey(fleet[i]) == Some(key)
  }

  /** Switched away from a vanished upstream: off exactly what the others serve. */
  ghost predicate SwitchedAway(i: nat, fleet: seq<State>, w: World, made: seq<SwitchCall>, after: State, status: Status)
    requires i < |fleet|
  {
    && (status == Ok || status == Down) && |made| == 1
    && made[0] == SwitchCall(i, made[0].exclude, w.swap, fleet[i], made[0].attempt, status == Ok, after)
    && ExactlyOthers(made[0].exclude, fleet, i)
  }

  /** Rotated, or tried to: on every piece of evidence at once, to the first candidate
      proven faster, by one switch that may go nowhere else. A rotation that fails
      leaves the status as it was, whatever became of the child. */
  ghost predicate RotatedTo(i: nat, fleet: seq<State>, w: World, e: Evidence, was: Status, how: Reconcile, to: string,
                            ok: bool, made: seq<SwitchCall>, after: State, status: Status)
    requires i < |fleet|
  {
    var s := fleet[i];
    && IdleAndSlow(s, e, w) && Taken(how.avoided, fleet, i)
    && Chosen(s.configs, s.latency, w, how.avoided, how.probes, to)
    && |made| == 1
    && made[0] == SwitchCall(i, Keys(s.configs) - {to}, w.swap, Scanned(s, e, w), made[0].attempt, ok, after)
    && FromWorld(made[0])
    && status == (if ok then Ok else was) && (ok ==> ActiveKey(after) == Some(to))
  }

  /** Left alone: without the evidence, or because nobody probed was faster. */
  ghost predicate LeftAlone(i: nat, fleet: seq<State>, w: World, e: Evidence, how: Reconcile, after: State)
    requires i < |fleet|
  {
    var s := fleet[i];
    && after == Scanned(s, e, w)
    && (IdleAndSlow(s, e, w) ==> Taken(how.avoided, fleet, i) && NoneFaster(s.configs, s.latency, w, how.avoided))
  }

  /** Everything reconciling instance i with the pool it was just given may do: `fleet`
      is what it finds, `prev` the upstream it had before. */
  ghost predicate Reconciled(i: nat, fleet: seq<State>, prev: Option<ProxyConfig>, w: World, e: Evidence, was: Status,
                             how: Reconcile, made: seq<SwitchCall>, after: State, status: Status)
    requires i < |fleet|
  {
    && how.probes <= ROTATE_MAX_CANDIDATES
    && (ActiveKey(fleet[i]).None? <==> how.act.RetainedPrevious? || how.act.SwitchedVanished?)
    && match how.act
       case RetainedPrevious =>
         WorthKeeping(i, fleet, prev) && after == Retained(fleet[i], prev.value) && made == [] && status == was
       case SwitchedVanished => !WorthKeeping(i, fleet, prev) && SwitchedAway(i, fleet, w, made, after, status)
       case Rotated(to) => RotatedTo(i, fleet, w, e, was, how, to, true, made, after, status)
       case RotationFailed(to) => RotatedTo(i, fleet, w, e, was, how, to, false, made, after, status)
       case Untouched => LeftAlone(i, fleet, w, e, how, after) && made == [] && status == was
  }

  /** One instance's turn in a refresh: it gets its pool and, if it was ok, is reconciled. */
  ghost predicate Renewed(i: nat, pool: seq<ProxyConfig>, w: World, t: Turn)
    requires i < |t.fleet| && t.did.Refresh?
  {
    var s := Refreshed(t.fleet[i], pool);
    && (t.did.how.Some? <==> t.was == Ok)
    && match t.did.how
       case None => t.after == s && t.status == t.was && t.made == []
       case Some(how) =>
         Reconciled(i, t.fleet[i := s], ActiveConfig(t.fleet[i]), w, t.did.e, t.was, how, t.made, t.after, t.status)
  }

  /** The key an instance serves is not in the new pool. (An empty key is never looked for.) */
  predicate Gone(s: State, pool: seq<ProxyConfig>) {
    ActiveKey(s).None? || ActiveKey(s).value == "" || ActiveKey(s).value !in Keys(pool)
  }

  /** In short: unless its key is gone from the new pool an upstream is kept or rotated;
      if it is gone, it is put back at the head or switched away from. */
  lemma RenewalOutcome(i: nat, pool: seq<ProxyConfig>, w: World, t: Turn)
    requires i < |t.fleet| && t.did.Refresh? && Inv(t.fleet[i]) && Renewed(i, pool, w, t) && t.was == Ok
    ensures var before, act := t.fleet[i], t.did.how.value.act;
            && (act.RetainedPrevious? || act.SwitchedVanished? <==> Gone(before, pool))
            && (act.RetainedPrevious? ==>
                  && ActiveConfig(before).Some?
                  && var prev := ActiveConfig(before).value;
                     t.after.configs == if prev.Key() in Keys(pool) then pool else [prev] + pool)
            && (act.RetainedPrevious? || act.Untouched? ==>
                  t.after.live == before.live && ActiveKey(t.after) == ActiveKey(before))
            && (act.Untouched? ==> t.after.configs == pool)
  {
    RefreshedInv(t.fleet[i], pool);
  }

  // ---- whole passes ----

  /** The fleet as turn k finds it: the turns before it done and those after it to come. */
  function Midway(turns: seq<Turn>, before: seq<State>, k: nat): (fleet: seq<State>)
    requires k <= |turns| && k <= |before|
    ensures |fleet| == |before|
    ensures forall j | 0 <= j < |before| :: fleet[j] == if j < k then turns[j].after else before[j]
  {
    seq(|before|, j requires 0 <= j < |before| && k <= |turns| => if j < k then turns[j].after else before[j])
  }

  function Marked(turns: seq<Turn>, was: seq<Status>): (statuses: seq<Status>)
    requires |turns| <= |was|
    ensures |statuses| == |was|
    ensures forall j | 0 <= j < |was| :: statuses[j] == if j < |turns| then turns[j].status else was[j]
  {
    seq(|was|, j requires 0 <= j < |was| => if j < |turns| then turns[j].status else was[j])
  }

  /** Before the first turn everything is as it was. */
  lemma Unvisited(before: seq<State>, was: seq<Status>)
    requires |before| == |was|
    ensures Midway([], before, 0) == before && Marked([], was) == was
  {
  }

  lemma OneMoreTurn(turns: seq<Turn>, turn: Turn, before: seq<State>, was: seq<Status>)
    requires |turns| < |before| == |was|
    ensures Midway(turns + [turn], before, |turns| + 1) == Midway(turns, before, |turns|)[|turns| := turn.after]
    ensures Marked(turns + [turn], was) == Marked(turns, was)[|turns| := turn.status]
  {
  }

  /** Turn k of a pass of health checks went right. */
  ghost predicate CheckedRight(k: nat, worlds: seq<World>, seen: seq<Evidence>, turns: seq<Turn>, before: seq<State>,
                               was: seq<Status>, workers: nat)
    requires workers > 0 && k < |turns| <= |worlds| == |seen| == |before| == |was|
  {
    && turns[k].fleet == Midway(turns, before, k) && turns[k].was == was[k] && turns[k].did == Check(seen[k])
    && Checked(k, worlds[k], turns[k]) && AllKept(turns[k].made, workers)
  }

  ghost predicate AllChecked(worlds: seq<World>, seen: seq<Evidence>, turns: seq<Turn>, before: seq<State>,
                             was: seq<Status>, workers: nat)
  {
    workers > 0 && |turns| <= |worlds| == |seen| == |before| == |was|
    && forall k: nat {:trigger CheckedRight(k, worlds, seen, turns, before, was, workers)} | k < |turns| ::
         CheckedRight(k, worlds, seen, turns, before, was, workers)
  }

  lemma MoreChecked(worlds: seq<World>, seen: seq<Evidence>, turns: seq<Turn>, turn: Turn, before: seq<State>,
                    was: seq<Status>, workers: nat)
    requires AllChecked(worlds, seen, turns, before, was, workers) && |turns| < |before|
    requires turn.fleet == Midway(turns, before, |turns|) && turn.was == was[|turns|]
    requires turn.did == Check(seen[|turns|])
    requires Checked(|turns|, worlds[|turns|], turn) && AllKept(turn.made, workers)
    ensures AllChecked(worlds, seen, turns + [turn], before, was, workers)
  {
    var more := turns + [turn];
    forall k: nat | k < |more|
      ensures CheckedRight(k, worlds, seen, more, before, was, workers)
    {
      assert Midway(more, before, k) == Midway(turns, before, k);
      if k < |turns| {
        assert more[k] == turns[k];
        assert CheckedRight(k, worlds, seen, turns, before, was, workers);
      } else {
        assert more[k] == turn;
      }
    }
  }

  /** Turn k of a refresh went right. */
  ghost predicate RenewedRight(k: nat, pools: seq<seq<ProxyConfig>>, worlds: seq<World>, seen: seq<Evidence>,
                               turns: seq<Turn>, before: seq<State>, was: seq<Status>, workers: nat)
    requires workers > 0 && k < |turns| <= |pools| == |worlds| == |seen| == |before| == |was|
  {
    && turns[k].fleet == Midway(turns, before, k) && turns[k].was == was[k]
    && turns[k].did.Refresh? && turns[k].did.e == seen[k]
    && Renewed(k, pools[k], worlds[k], turns[k]) && AllKept(turns[k].made, workers)
  }

  ghost predicate AllRenewed(pools: seq<seq<ProxyConfig>>, worlds: seq<World>, seen: seq<Evidence>,
                             turns: seq<Turn>, before: seq<State>, was: seq<Status>, workers: nat)
  {
    workers > 0 && |turns| <= |pools| == |worlds| == |seen| == |before| == |was|
    && forall k: nat {:trigger RenewedRight(k, pools, worlds, seen, turns, before, was, workers)} | k < |turns| ::
         RenewedRight(k, pools, worlds, seen, turns, before, was, workers)
  }

  lemma MoreRenewed(pools: seq<seq<ProxyConfig>>, worlds: seq<World>, seen: seq<Evidence>, turns: seq<Turn>, turn: Turn,
                    before: seq<State>, was: seq<Status>, workers: nat)
    requires AllRenewed(pools, worlds, seen, turns, before, was, workers) && |turns| < |pools|
    requires turn.fleet == Midway(turns, before, |turns|) && turn.was == was[|turns|]
    requires turn.did.Refresh? && turn.did.e == seen[|turns|]
    requires Renewed(|turns|, pools[|turns|], worlds[|turns|], turn) && AllKept(turn.made, workers)
    ensures AllRenewed(pools, worlds, seen, turns + [turn], before, was, workers)
  {
    var more := turns + [turn];
    forall k: nat | k < |more|
      ensures RenewedRight(k, pools, worlds, seen, more, before, was, workers)
    {
      assert Midway(more, before, k) == Midway(turns, before, k);
      if k < |turns| {
        assert more[k] == turns[k];
        assert RenewedRight(k, pools, worlds, seen, turns, before, was, workers);
      } else {
        assert more[k] == turn;
      }
    }
  }

  /** A switch leaves its instance on the key it had, on none, or on one of its pool
      that was not excluded. */
  predicate KeyMoves(before: State, exclude: set<string>, ok: bool, after: State) {
    && (ActiveKey(after).None? || ActiveKey(after) == ActiveKey(before)
        || (ActiveKey(after).value in Keys(before.configs) && ActiveKey(after).value !in exclude))
    && (ok ==> ActiveKey(after).Some? && ActiveKey(after).value in Keys(before.configs)
               && ActiveKey(after).value !in exclude)
  }

  lemma KeyAfterSwitch(before: State, exclude: set<string>, mid: State, ok: bool, after: State)
    requires ActiveKey(mid) == ActiveKey(before) || ActiveKey(mid) == None
    requires if ok then SwitchedTo(before, mid, after, exclude) else SwitchFailed(before, mid, after)
    ensures KeyMoves(before, exclude, ok, after)
  {
  }
}
