// The manager and its passes over its instances (v2proxy/manager.go): health checks,
// subscription refreshes with retain / vanished-switch / slow rotation. The
// property they share: no two instances have the same active key.

module Fleet {
  import opened Pool
  import opened Health
  import opened SelectorState
  import opened Selector
  import opened Passes
  import Egress

  class ProxyManager {
    const instances: seq<ProxySelector>
    var statuses: seq<Status>
    var relayAlive: bool
    const workers: nat

    ghost predicate Valid()
      reads this`statuses, instances
    {
      && |statuses| == |instances| && workers > 0
      && (forall i, j | 0 <= i < j < |instances| :: instances[i] != instances[j])
      && (forall i | 0 <= i < |instances| :: Inv(instances[i].Abs()))
    }

    /** Pairwise-distinct active keys. */
    ghost predicate Distinct()
      reads instances
    {
      forall i, j | 0 <= i < j < |instances| ::
        ActiveKey(instances[i].Abs()).Some? ==> ActiveKey(instances[i].Abs()) != ActiveKey(instances[j].Abs())
    }

    ghost predicate OwnedElsewhere(i: nat, key: string)
      reads instances
    {
      exists j :: 0 <= j < |instances| && j != i && ActiveKey(instances[j].Abs()) == Some(key)
    }

    /** The keys the other instances serve. */
    method BuildExcluding(i: nat) returns (used: set<string>)
      requires Valid()
      ensures forall key :: key in used <==> OwnedElsewhere(i, key)
    {
      used := {};
      for j := 0 to |instances|
        invariant forall key :: key in used <==>
                    exists k :: 0 <= k < j && k != i && ActiveKey(instances[k].Abs()) == Some(key)
      {
        if j != i {
          var o := instances[j];
          if 0 <= o.activeIndex < |o.configs| {
            used := used + {o.configs[o.activeIndex].Key()};
          }
        }
      }
    }

    method Mark(i: nat, s: Status)
      modifies this`statuses
      ensures statuses == if i < |old(statuses)| then old(statuses)[i := s] else old(statuses)
    {
      if i < |statuses| {
        statuses := statuses[i := s];
      }
    }

    /** The states of the first k instances. */
    ghost function Fleet(k: nat): (s: seq<State>)
      requires k <= |instances|
      reads instances
      ensures |s| == k && forall j | 0 <= j < k :: s[j] == instances[j].Abs()
    {
      if k == 0 then [] else Fleet(k - 1) + [instances[k - 1].Abs()]
    }

    /** Owned elsewhere in the heap is served by another in the fleet. */
    lemma OwnersInFleet(i: nat)
      ensures forall key :: OwnedElsewhere(i, key) <==> ServedByOther(Fleet(|instances|), i, key)
    {
    }

    /** A switch that keeps off the other instances' keys keeps the fleet distinct,
        whether it succeeds, restores, or ends with nothing. */
    method SwitchApart(i: nat, exclude: set<string>, w: SwapWorld) returns (ok: bool, ghost made: seq<SwitchCall>)
      requires Valid() && Distinct() && i < |instances|
      requires forall key | OwnedElsewhere(i, key) && key in Keys(instances[i].configs) :: key in exclude
      modifies instances[i]
      ensures Valid() && Distinct()
      ensures |made| == 1 && AllKept(made, workers)
      ensures made[0] == SwitchCall(i, exclude, w, old(instances[i].Abs()), made[0].attempt, ok, instances[i].Abs())
      ensures ok ==> ActiveKey(instances[i].Abs()).Some? && ActiveKey(instances[i].Abs()).value !in exclude
                     && ActiveKey(instances[i].Abs()).value in Keys(old(instances[i].configs))
    {
      ghost var before := instances[i].Abs();
      ok, made := RunSwitch(i, exclude, w);
      ghost var after := instances[i].Abs();
      SameOthers(i);
      if ActiveKey(after).Some? && ActiveKey(after) != ActiveKey(before) {
        assert !old(OwnedElsewhere(i, ActiveKey(after).value));
        assert !OwnedElsewhere(i, ActiveKey(after).value);
      }
    }

    /** A switch that avoids exactly what the others serve. */
    method SwitchToUnused(i: nat, w: SwapWorld) returns (used: set<string>, ok: bool, ghost made: seq<SwitchCall>)
      requires Valid() && Distinct() && i < |instances|
      modifies instances[i]
      ensures Valid() && Distinct()
      ensures forall key :: key in used <==> old(OwnedElsewhere(i, key))
      ensures |made| == 1 && AllKept(made, workers)
      ensures made[0] == SwitchCall(i, used, w, old(instances[i].Abs()), made[0].attempt, ok, instances[i].Abs())
      ensures ok ==> ActiveKey(instances[i].Abs()).Some? && ActiveKey(instances[i].Abs()).value !in used
    {
      used := BuildExcluding(i);
      ok, made := SwitchApart(i, used, w);
    }

    /** The switch itself, and what it means for the active key. */
    method RunSwitch(i: nat, exclude: set<string>, w: SwapWorld) returns (ok: bool, ghost made: seq<SwitchCall>)
      requires Valid() && i < |instances|
      modifies instances[i]
      ensures Valid()
      ensures |made| == 1 && AllKept(made, workers)
      ensures made[0] == SwitchCall(i, exclude, w, old(instances[i].Abs()), made[0].attempt, ok, instances[i].Abs())
      ensures KeyMoves(old(instances[i].Abs()), exclude, ok, instances[i].Abs())
    {
      ghost var before := instances[i].Abs();
      ghost var a;
      ok, a := instances[i].SwitchToNextExcluding(exclude, workers, w);
      made := [SwitchCall(i, exclude, w, before, a, ok, instances[i].Abs())];
      SwitchOutcome(before, exclude, workers, w, a, ok, instances[i].Abs());
      KeyAfterSwitch(before, exclude, a.mid, ok, instances[i].Abs());
    }

    /** Mark down, exclude what the others serve, switch, mark the outcome. */
    method FailOver(i: nat, w: World) returns (ghost made: seq<SwitchCall>)
      requires Valid() && Distinct() && i < |instances|
      modifies this`statuses, instances[i]
      ensures Valid() && Distinct()
      ensures statuses == old(statuses)[i := statuses[i]]
      ensures SwitchedAway(i, old(Fleet(|instances|)), w, made, instances[i].Abs(), statuses[i])
              && AllKept(made, workers)
    {
      OwnersInFleet(i);
      Mark(i, Down);
      var used, ok;
      used, ok, made := SwitchToUnused(i, w.swap);
      Mark(i, if ok then Ok else Down);
    }

    function EvidenceOf(i: nat, notes: Egress.EgressNotes, w: World): Evidence
      requires i < |instances|
      reads notes
    {
      if Egress.Active(notes.lastOK, [instances[i].httpPort, instances[i].socksPort], Egress.EGRESS_GRACE, w.now)
      then Traffic else Probe(w.health)
    }

    /** One health pass over every instance, and one probe of the relay they share. */
    method HealthCheckAll(notes: Egress.EgressNotes, worlds: seq<World>, relay: Option<HealthResult>)
      returns (ghost turns: seq<Turn>)
      requires Valid() && Distinct() && |worlds| == |instances|
      modifies this, instances
      ensures Valid() && Distinct()
      ensures |turns| == |instances|
      ensures Fleet(|instances|) == Midway(turns, old(Fleet(|instances|)), |instances|)
      ensures statuses == Marked(turns, old(statuses))
      ensures AllChecked(worlds, Evidences(notes, worlds, |instances|), turns, old(Fleet(|instances|)), old(statuses),
                         workers)
      ensures relayAlive == if relay.Some? then relay.value.working else old(relayAlive)
    {
      turns := CheckAll(notes, worlds);
      ProbeRelay(relay);
    }

    /** One check of every instance. */
    method CheckAll(notes: Egress.EgressNotes, worlds: seq<World>) returns (ghost turns: seq<Turn>)
      requires Valid() && Distinct() && |worlds| == |instances|
      modifies this`statuses, instances
      ensures Valid() && Distinct() && |turns| == |instances|
      ensures Checking(notes, worlds, turns, old(Fleet(|instances|)), old(statuses))
    {
      ghost var before, was := Fleet(|instances|), statuses;
      turns := [];
      Unvisited(before, was);
      for i := 0 to |instances|
        invariant Valid() && Distinct() && |turns| == i
        invariant Checking(notes, worlds, turns, before, was)
      {
        turns := CheckNext(i, notes, worlds, turns, before, was);
      }
    }

    /** `relay` is what a probe through the relay would say, if there is one to probe. */
    method ProbeRelay(relay: Option<HealthResult>)
      modifies this`relayAlive
      ensures relayAlive == if relay.Some? then relay.value.working else old(relayAlive)
    {
      if relay.None? {
        return;
      }
      relayAlive := relay.value.working;
    }

    /** A health pass that has come as far as `turns`. */
    ghost predicate Checking(notes: Egress.EgressNotes, worlds: seq<World>, turns: seq<Turn>, before: seq<State>,
                             was: seq<Status>)
      reads this`statuses, instances, notes
    {
      && |turns| <= |before| == |was| == |worlds| == |instances|
      && Fleet(|instances|) == Midway(turns, before, |turns|) && statuses == Marked(turns, was)
      && AllChecked(worlds, Evidences(notes, worlds, |instances|), turns, before, was, workers)
    }

    /** The body of the pass. */
    method CheckNext(i: nat, notes: Egress.EgressNotes, worlds: seq<World>, ghost turns: seq<Turn>,
                     ghost before: seq<State>, ghost was: seq<Status>)
      returns (ghost more: seq<Turn>)
      requires Valid() && Distinct() && i == |turns| < |instances| && |worlds| == |instances|
      requires Checking(notes, worlds, turns, before, was)
      modifies this`statuses, instances[i]
      ensures Valid() && Distinct() && |more| == i + 1
      ensures Checking(notes, worlds, more, before, was)
    {
      ghost var turn := CheckIfDue(i, notes, worlds[i]);
      MoreChecked(worlds, Evidences(notes, worlds, |instances|), turns, turn, before, was, workers);
      OneMoreTurn(turns, turn, before, was);
      more := turns + [turn];
    }

    /** What the first k checks see. */
    ghost function Evidences(notes: Egress.EgressNotes, worlds: seq<World>, k: nat): (seen: seq<Evidence>)
      requires k <= |instances| && k <= |worlds|
      reads notes
      ensures |seen| == k && forall j | 0 <= j < k :: seen[j] == EvidenceOf(j, notes, worlds[j])
    {
      if k == 0 then [] else Evidences(notes, worlds, k - 1) + [EvidenceOf(k - 1, notes, worlds[k - 1])]
    }

    method CheckIfDue(i: nat, notes: Egress.EgressNotes, w: World) returns (ghost turn: Turn)
      requires Valid() && Distinct() && i < |instances|
      modifies this`statuses, instances[i]
      ensures Valid() && Distinct()
      ensures turn == Turn(old(Fleet(|instances|)), old(statuses)[i], Check(EvidenceOf(i, notes, w)), turn.made,
                           instances[i].Abs(), statuses[i])
      ensures Checked(i, w, turn) && AllKept(turn.made, workers)
      ensures statuses == old(statuses)[i := statuses[i]]
      ensures Fleet(|instances|) == old(Fleet(|instances|))[i := instances[i].Abs()]
    {
      if w.due {
        turn := CheckOne(i, notes, w);
        OneMoved(i);
      } else {
        turn := Turn(Fleet(|instances|), statuses[i], Check(EvidenceOf(i, notes, w)), [], instances[i].Abs(),
                     statuses[i]);
      }
    }

    method CheckOne(i: nat, notes: Egress.EgressNotes, w: World) returns (ghost turn: Turn)
      requires Valid() && Distinct() && i < |instances| && w.due
      modifies this`statuses, instances[i]
      ensures Valid() && Distinct()
      ensures turn == Turn(old(Fleet(|instances|)), old(statuses)[i], Check(EvidenceOf(i, notes, w)), turn.made,
                           instances[i].Abs(), statuses[i])
      ensures Checked(i, w, turn) && AllKept(turn.made, workers)
      ensures statuses == old(statuses)[i := statuses[i]]
    {
      ghost var fleet := Fleet(|instances|);
      OwnersInFleet(i);
      var healthy := Examine(i, notes, w);
      OwnersInFleet(i);
      ghost var made: seq<SwitchCall> := [];
      if healthy {
        Mark(i, Ok);
      } else {
        made := FailOver(i, w);
      }
      turn := Turn(fleet, old(statuses)[i], Check(EvidenceOf(i, notes, w)), made, instances[i].Abs(), statuses[i]);
    }

    method Examine(i: nat, notes: Egress.EgressNotes, w: World) returns (healthy: bool)
      requires Valid() && Distinct() && i < |instances|
      modifies instances[i]
      ensures Valid() && Distinct()
      ensures (instances[i].Abs(), healthy) == HealthChecked(old(instances[i].Abs()), EvidenceOf(i, notes, w), w.now)
      ensures forall key :: OwnedElsewhere(i, key) == old(OwnedElsewhere(i, key))
    {
      healthy := instances[i].HealthCheck(notes, w.health, w.now);
      assert ActiveKey(instances[i].Abs()) == ActiveKey(old(instances[i].Abs()));
      SameOthers(i);
    }

    /** Changing instance i changes its place in the fleet and no other. */
    twostate lemma OneMoved(i: nat)
      requires old(Valid()) && i < |instances|
      requires forall j | 0 <= j < |instances| && j != i :: unchanged(instances[j])
      ensures Fleet(|instances|) == old(Fleet(|instances|))[i := instances[i].Abs()]
    {
    }

    /** Changing instance i is invisible to the others. */
    twostate lemma SameOthers(i: nat)
      requires old(Valid()) && i < |instances|
      requires forall j | 0 <= j < |instances| && j != i :: unchanged(instances[j])
      ensures forall j | 0 <= j < |instances| && j != i :: instances[j].Abs() == old(instances[j].Abs())
      ensures forall key :: OwnedElsewhere(i, key) == old(OwnedElsewhere(i, key))
    {
      forall key ensures OwnedElsewhere(i, key) == old(OwnedElsewhere(i, key)) {
        assert forall j | 0 <= j < |instances| && j != i :: instances[j].Abs() == old(instances[j].Abs());
      }
    }

    /** One refresh over every instance, each with its own order of the new pool. Those
        that are not ok get the pool here and recover on their own time. */
    method RefreshSubscriptions(pools: seq<seq<ProxyConfig>>, notes: Egress.EgressNotes, worlds: seq<World>)
      returns (ghost turns: seq<Turn>)
      requires Valid() && Distinct() && |worlds| == |pools| == |instances|
      modifies this`statuses, instances
      ensures Valid() && Distinct()
      ensures |turns| == |instances|
      ensures Fleet(|instances|) == Midway(turns, old(Fleet(|instances|)), |instances|)
      ensures statuses == Marked(turns, old(statuses))
      ensures AllRenewed(pools, worlds, Evidences(notes, worlds, |instances|), turns, old(Fleet(|instances|)),
                         old(statuses), workers)
    {
      ghost var before, was := Fleet(|instances|), statuses;
      turns := [];
      Unvisited(before, was);
      for i := 0 to |instances|
        invariant Valid() && Distinct() && |turns| == i
        invariant Refreshing(pools, notes, worlds, turns, before, was)
      {
        turns := RefreshNext(i, pools, notes, worlds, turns, before, was);
      }
    }

    /** A refresh that has come as far as `turns`. */
    ghost predicate Refreshing(pools: seq<seq<ProxyConfig>>, notes: Egress.EgressNotes, worlds: seq<World>,
                               turns: seq<Turn>, before: seq<State>, was: seq<Status>)
      reads this`statuses, instances, notes
    {
      && |turns| <= |before| == |was| == |pools| == |worlds| == |instances|
      && Fleet(|instances|) == Midway(turns, before, |turns|) && statuses == Marked(turns, was)
      && AllRenewed(pools, worlds, Evidences(notes, worlds, |instances|), turns, before, was, workers)
    }

    /** The body of the refresh. */
    method RefreshNext(i: nat, pools: seq<seq<ProxyConfig>>, notes: Egress.EgressNotes, worlds: seq<World>,
                       ghost turns: seq<Turn>, ghost before: seq<State>, ghost was: seq<Status>)
      returns (ghost more: seq<Turn>)
      requires Valid() && Distinct() && i == |turns| < |instances| && |worlds| == |pools| == |instances|
      requires Refreshing(pools, notes, worlds, turns, before, was)
      modifies this`statuses, instances[i]
      ensures Valid() && Distinct() && |more| == i + 1
      ensures Refreshing(pools, notes, worlds, more, before, was)
    {
      ghost var turn := RefreshAndRecord(i, pools, notes, worlds, turns, before, was);
      OneMoreTurn(turns, turn, before, was);
      more := turns + [turn];
    }

    method RefreshAndRecord(i: nat, pools: seq<seq<ProxyConfig>>, notes: Egress.EgressNotes, worlds: seq<World>,
                            ghost turns: seq<Turn>, ghost before: seq<State>, ghost was: seq<Status>)
      returns (ghost turn: Turn)
      requires Valid() && Distinct() && i == |turns| < |instances| && |worlds| == |pools| == |instances|
      requires Refreshing(pools, notes, worlds, turns, before, was)
      modifies this`statuses, instances[i]
      ensures Valid() && Distinct()
      ensures turn.after == instances[i].Abs() && turn.status == statuses[i]
      ensures AllRenewed(pools, worlds, Evidences(notes, worlds, |instances|), turns + [turn], before, was, workers)
      ensures statuses == old(statuses)[i := statuses[i]]
      ensures Fleet(|instances|) == old(Fleet(|instances|))[i := instances[i].Abs()]
    {
      turn := RefreshTurn(i, pools[i], notes, worlds[i]);
      MoreRenewed(pools, worlds, Evidences(notes, worlds, |instances|), turns, turn, before, was, workers);
    }

    method RefreshTurn(i: nat, pool: seq<ProxyConfig>, notes: Egress.EgressNotes, w: World) returns (ghost turn: Turn)
      requires Valid() && Distinct() && i < |instances|
      modifies this`statuses, instances[i]
      ensures Valid() && Distinct()
      ensures turn == Turn(old(Fleet(|instances|)), old(statuses)[i], turn.did, turn.made, instances[i].Abs(),
                           statuses[i])
      ensures turn.did.Refresh? && turn.did.e == EvidenceOf(i, notes, w)
      ensures Renewed(i, pool, w, turn) && AllKept(turn.made, workers)
      ensures statuses == old(statuses)[i := statuses[i]]
      ensures Fleet(|instances|) == old(Fleet(|instances|))[i := instances[i].Abs()]
    {
      if statuses[i] == Ok {
        turn := RefreshOk(i, pool, notes, w);
      } else {
        turn := RefreshDown(i, pool, notes, w);
      }
      OneMoved(i);
    }

    method RefreshDown(i: nat, pool: seq<ProxyConfig>, notes: Egress.EgressNotes, ghost w: World)
      returns (ghost turn: Turn)
      requires Valid() && Distinct() && i < |instances| && statuses[i] != Ok
      modifies instances[i]
      ensures Valid() && Distinct()
      ensures turn == Turn(old(Fleet(|instances|)), statuses[i], Refresh(EvidenceOf(i, notes, w), None), [],
                           instances[i].Abs(), statuses[i])
      ensures Renewed(i, pool, w, turn) && AllKept(turn.made, workers)
    {
      turn := Turn(Fleet(|instances|), statuses[i], Refresh(EvidenceOf(i, notes, w), None), [],
                   Refreshed(instances[i].Abs(), pool), statuses[i]);
      SwapPool(i, pool);
    }

    method RefreshOk(i: nat, pool: seq<ProxyConfig>, notes: Egress.EgressNotes, w: World) returns (ghost turn: Turn)
      requires Valid() && Distinct() && i < |instances| && statuses[i] == Ok
      modifies this`statuses, instances[i]
      ensures Valid() && Distinct()
      ensures turn == Turn(old(Fleet(|instances|)), Ok, turn.did, turn.made, instances[i].Abs(), statuses[i])
      ensures turn.did.Refresh? && turn.did.e == EvidenceOf(i, notes, w)
      ensures Renewed(i, pool, w, turn) && AllKept(turn.made, workers)
      ensures statuses == old(statuses)[i := statuses[i]]
    {
      ghost var how, made := RefreshOne(i, pool, notes, w);
      turn := Turn(old(Fleet(|instances|)), Ok, Refresh(EvidenceOf(i, notes, w), Some(how)), made,
                   instances[i].Abs(), statuses[i]);
    }

    method SwapPool(i: nat, pool: seq<ProxyConfig>)
      requires Valid() && Distinct() && i < |instances|
      modifies instances[i]
      ensures Valid() && Distinct()
      ensures instances[i].Abs() == Refreshed(old(instances[i].Abs()), pool)
      ensures Fleet(|instances|) == old(Fleet(|instances|))[i := instances[i].Abs()]
    {
      RefreshedInv(instances[i].Abs(), pool);
      instances[i].UpdateConfigs(pool);
      SameOthers(i);
    }

    /** What a refresh does to an instance that is ok: swap its pool, then reconcile. */
    method RefreshOne(i: nat, pool: seq<ProxyConfig>, notes: Egress.EgressNotes, w: World)
      returns (ghost how: Reconcile, ghost made: seq<SwitchCall>)
      requires Valid() && Distinct() && i < |instances|
      modifies this`statuses, instances[i]
      ensures Valid() && Distinct()
      ensures statuses == old(statuses)[i := statuses[i]]
      ensures Reconciled(i, old(Fleet(|instances|))[i := Refreshed(old(instances[i].Abs()), pool)],
                         ActiveConfig(old(instances[i].Abs())), w, EvidenceOf(i, notes, w), old(statuses)[i],
                         how, made, instances[i].Abs(), statuses[i])
      ensures AllKept(made, workers)
    {
      var prev := instances[i].Active();
      SwapPool(i, pool);
      how, made := ReconcileActive(i, prev, notes, w);
    }

    /** Retain, rotate away, or opportunistically replace the upstream of one ok instance. */
    method ReconcileActive(i: nat, prev: Option<ProxyConfig>, notes: Egress.EgressNotes, w: World)
      returns (ghost how: Reconcile, ghost made: seq<SwitchCall>)
      requires Valid() && Distinct() && i < |instances|
      // No switch landed since `prev` was read: the child still runs it.
      requires prev.Some? ==> forall pid | pid in instances[i].live :: instances[i].live[pid].Key() == prev.value.Key()
      modifies this`statuses, instances[i]
      ensures Valid() && Distinct()
      ensures statuses == old(statuses)[i := statuses[i]]
      ensures Reconciled(i, old(Fleet(|instances|)), prev, w, EvidenceOf(i, notes, w), old(statuses)[i],
                         how, made, instances[i].Abs(), statuses[i])
      ensures AllKept(made, workers)
    {
      var inst := instances[i];
      if inst.activeIndex < 0 || inst.activeIndex >= |inst.configs| {
        how, made := Vanished(i, prev, w);
      } else {
        how, made := MaybeRotate(i, notes, w);
      }
    }

    /** The active config is in the pool: replace it only if it is idle, slow and beaten. */
    method MaybeRotate(i: nat, notes: Egress.EgressNotes, w: World)
      returns (ghost how: Reconcile, ghost made: seq<SwitchCall>)
      requires Valid() && Distinct() && i < |instances| && InRange(instances[i].Abs())
      modifies this`statuses, instances[i]
      ensures Valid() && Distinct()
      ensures statuses == old(statuses)[i := statuses[i]]
      ensures how.act.Untouched? || how.act.Rotated? || how.act.RotationFailed?
      ensures how.probes <= ROTATE_MAX_CANDIDATES
      ensures var fleet, e := old(Fleet(|instances|)), EvidenceOf(i, notes, w);
              match how.act
              case Untouched =>
                LeftAlone(i, fleet, w, e, how, instances[i].Abs()) && made == [] && statuses == old(statuses)
              case Rotated(to) =>
                RotatedTo(i, fleet, w, e, old(statuses)[i], how, to, true, made, instances[i].Abs(), statuses[i])
              case RotationFailed(to) =>
                RotatedTo(i, fleet, w, e, old(statuses)[i], how, to, false, made, instances[i].Abs(), statuses[i])
              case _ => true
      ensures AllKept(made, workers)
    {
      OwnersInFleet(i);
      var may := MayRotate(i, notes, w);
      if !may {
        return Reconcile(Untouched, {}, 0), [];
      }
      how, made := RotateSlow(i, w);
      if !how.act.Untouched? {
        KeptIsFromWorld(made, workers, 0);
      }
    }

    method MayRotate(i: nat, notes: Egress.EgressNotes, w: World) returns (may: bool)
      requires Valid() && Distinct() && i < |instances|
      modifies instances[i]
      ensures Valid() && Distinct()
      ensures may <==> IdleAndSlow(old(instances[i].Abs()), EvidenceOf(i, notes, w), w)
      ensures instances[i].Abs() == Scanned(old(instances[i].Abs()), EvidenceOf(i, notes, w), w)
      ensures forall key :: OwnedElsewhere(i, key) == old(OwnedElsewhere(i, key))
    {
      var inst := instances[i];
      var serving := notes.EgressActive([inst.httpPort, inst.socksPort], Egress.EGRESS_GRACE, w.now);
      if serving {
        return false;
      }
      var busy := inst.ServingClients(w.sockets, w.socketsKnown, w.now);
      SameOthers(i);
      if busy {
        return false;
      }
      if inst.lastProbe.None? || w.now - inst.lastProbe.value > ROTATE_LATENCY_MAX_AGE {
        return false;
      }
      return inst.lastLatency >= ROTATE_SLOW_LATENCY;
    }

    /** The keys to rotate away from, as the heap has them. */
    ghost predicate Avoided(i: nat, keys: set<string>)
      requires i < |instances|
      reads instances
    {
      forall key :: key in keys <==> OwnedElsewhere(i, key) || ActiveKey(instances[i].Abs()) == Some(key)
    }

    /** Probes a few fresh candidates on throwaway ports and moves to the first one
        proven decisively faster, if any. */
    method RotateSlow(i: nat, w: World) returns (ghost how: Reconcile, ghost made: seq<SwitchCall>)
      requires Valid() && Distinct() && i < |instances| && InRange(instances[i].Abs())
      modifies this`statuses, instances[i]
      ensures Valid() && Distinct()
      ensures statuses == if how.act.Rotated? then old(statuses)[i := Ok] else old(statuses)
      ensures old(Avoided(i, how.avoided)) && how.probes <= ROTATE_MAX_CANDIDATES
      ensures how.act.Untouched? || how.act.Rotated? || how.act.RotationFailed?
      ensures AllKept(made, workers)
      ensures how.act.Rotated? || how.act.RotationFailed? ==>
                && Chosen(old(instances[i].configs), old(instances[i].lastLatency), w, how.avoided, how.probes,
                          how.act.to)
                && |made| == 1
                && made[0] == SwitchCall(i, Keys(old(instances[i].configs)) - {how.act.to}, w.swap,
                                         old(instances[i].Abs()), made[0].attempt, how.act.Rotated?, instances[i].Abs())
      ensures how.act.Rotated? ==> ActiveKey(instances[i].Abs()) == Some(how.act.to)
      ensures how.act.Untouched? ==>
                && instances[i].Abs() == old(instances[i].Abs()) && made == []
                && NoneFaster(old(instances[i].configs), old(instances[i].lastLatency), w, how.avoided)
    {
      var to;
      ghost var avoided, probes;
      to, avoided, probes := ChooseFaster(i, w);
      if to.None? {
        return Reconcile(Untouched, avoided, probes), [];
      }
      var ok;
      ok, made := MoveTo(i, to.value, w.swap);
      how := Reconcile(if ok then Rotated(to.value) else RotationFailed(to.value), avoided, probes);
    }

    /** The candidate to rotate to, if any: neither served by another instance nor active here. */
    method ChooseFaster(i: nat, w: World) returns (to: Option<string>, ghost avoided: set<string>, ghost probes: nat)
      requires Valid() && i < |instances| && InRange(instances[i].Abs())
      ensures Avoided(i, avoided) && probes <= ROTATE_MAX_CANDIDATES
      ensures to.Some? ==>
                && Chosen(instances[i].configs, instances[i].lastLatency, w, avoided, probes, to.value)
                && !OwnedElsewhere(i, to.value)
      ensures to.None? ==> NoneFaster(instances[i].configs, instances[i].lastLatency, w, avoided)
    {
      var inst := instances[i];
      var activeKey := inst.configs[inst.activeIndex].Key();
      var used := BuildExcluding(i);
      var chosen, tried := FindFaster(inst.configs, activeKey, used, inst.lastLatency, w);
      avoided, probes := used + {activeKey}, tried;
      if chosen.None? {
        return None, avoided, probes;
      }
      FreshIsFromPool(inst.configs, avoided, tried - 1);
      to := Some(chosen.value.Key());
    }

    /** The surgical switch: everything but the proven candidate is excluded. */
    method MoveTo(i: nat, to: string, w: SwapWorld) returns (ok: bool, ghost made: seq<SwitchCall>)
      requires Valid() && Distinct() && i < |instances| && !OwnedElsewhere(i, to)
      modifies this`statuses, instances[i]
      ensures Valid() && Distinct()
      ensures |made| == 1 && AllKept(made, workers)
      ensures made[0] == SwitchCall(i, Keys(old(instances[i].configs)) - {to}, w, old(instances[i].Abs()),
                                    made[0].attempt, ok, instances[i].Abs())
      ensures ok ==> ActiveKey(instances[i].Abs()) == Some(to)
      ensures statuses == if ok then old(statuses)[i := Ok] else old(statuses)
    {
      var excl := Keys(instances[i].configs) - {to};
      ok, made := SwitchApart(i, excl, w);
      if ok {
        Mark(i, Ok);
      }
    }

    /** The rotation's candidate loop. */
    method FindFaster(configs: seq<ProxyConfig>, activeKey: string, used: set<string>, latency: nat, w: World)
      returns (chosen: Option<ProxyConfig>, tried: nat)
      ensures tried <= ROTATE_MAX_CANDIDATES
      ensures chosen.Some? ==> Chosen(configs, latency, w, used + {activeKey}, tried, chosen.value.Key())
                               && chosen.value == Fresh(configs, used + {activeKey})[tried - 1]
      ensures chosen.None? ==> NoneFaster(configs, latency, w, used + {activeKey})
    {
      ghost var avoided := used + {activeKey};
      chosen, tried := None, 0;
      var k := 0;
      while k < |configs|
        invariant 0 <= k <= |configs| && Sifted(configs, k, latency, w, avoided, tried)
      {
        if tried >= ROTATE_MAX_CANDIDATES || !w.budgetLeft(tried) {
          NothingFaster(configs, latency, w, avoided, tried);
          return;
        }
        var c := configs[k];
        SiftNext(configs, k, latency, w, avoided, tried);
        k := k + 1;
        if c.Key() == activeKey || c.Key() in used {
          continue;
        }
        tried := tried + 1;
        var res := w.probe(c);
        if !res.working || res.latency * 10 >= latency * 7 {
          continue;
        }
        return Some(c), tried;
      }
      assert configs[..k] == configs;
      NothingFaster(configs, latency, w, avoided, tried);
    }

    method Retain(i: nat, prev: ProxyConfig)
      requires Valid() && Distinct() && i < |instances| && !OwnedElsewhere(i, prev.Key())
      requires forall pid | pid in instances[i].live :: instances[i].live[pid].Key() == prev.Key()
      modifies instances[i]
      ensures Valid() && Distinct()
      ensures instances[i].Abs() == Retained(old(instances[i].Abs()), prev)
      ensures ActiveKey(instances[i].Abs()) == Some(prev.Key())
    {
      RetainedInv(instances[i].Abs(), prev);
      instances[i].RetainActive(prev);
      SameOthers(i);
      assert forall j | 0 <= j < |instances| && j != i :: ActiveKey(old(instances[j].Abs())) != Some(prev.Key());
    }

    /** The active config is gone from the refreshed pool. */
    method Vanished(i: nat, prev: Option<ProxyConfig>, w: World)
      returns (ghost how: Reconcile, ghost made: seq<SwitchCall>)
      requires Valid() && Distinct() && i < |instances| && ActiveKey(instances[i].Abs()).None?
      requires prev.Some? ==> forall pid | pid in instances[i].live :: instances[i].live[pid].Key() == prev.value.Key()
      modifies this`statuses, instances[i]
      ensures Valid() && Distinct()
      ensures statuses == old(statuses)[i := statuses[i]]
      ensures var fleet := old(Fleet(|instances|));
              if WorthKeeping(i, fleet, prev)
              then how == Reconcile(RetainedPrevious, {}, 0) && made == [] && statuses == old(statuses)
                   && instances[i].Abs() == Retained(old(instances[i].Abs()), prev.value)
              else how == Reconcile(SwitchedVanished, {}, 0)
                   && SwitchedAway(i, fleet, w, made, instances[i].Abs(), statuses[i])
      ensures AllKept(made, workers)
    {
      OwnersInFleet(i);
      if prev.Some? && instances[i].failCount == 0 {
        var used := BuildExcluding(i);
        if prev.value.Key() !in used {
          Retain(i, prev.value);
          return Reconcile(RetainedPrevious, {}, 0), [];
        }
      }
      made := FailOver(i, w);
      how := Reconcile(SwitchedVanished, {}, 0);
    }

    /** Recovers a down instance. Its "taken by a peer" check reads the very set the
        switch was told to avoid, so that branch, and the second attempt behind it, is never reached. */
    method RecoverInstance(i: nat, w: World) returns (served: Option<string>, ghost made: seq<SwitchCall>)
      requires Valid() && Distinct() && i < |instances|
      modifies this`statuses, instances[i]
      ensures Valid() && Distinct()
      ensures |made| == 1 && AllKept(made, workers)
      ensures made[0] == SwitchCall(i, made[0].exclude, w.swap, old(instances[i].Abs()), made[0].attempt, served.Some?,
                                    instances[i].Abs())
      ensures forall key :: key in made[0].exclude <==> old(OwnedElsewhere(i, key))
      ensures served.Some? ==> ActiveKey(instances[i].Abs()) == served && !old(OwnedElsewhere(i, served.value))
      ensures statuses == if served.Some? then old(statuses)[i := Ok] else old(statuses)
    {
      var used, ok;
      used, ok, made := SwitchToUnused(i, w.swap);
      if !ok {
        return None, made;
      }
      var cfg := instances[i].Active();
      if cfg.None? {
        assert false;
      }
      if cfg.value.Key() in used {
        assert false;
      }
      Mark(i, Ok);
      return Some(cfg.value.Key()), made;
    }
  }
}
