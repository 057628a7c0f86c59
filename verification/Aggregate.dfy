// The aggregate endpoints (v2proxy/aggregate.go): the failover ladder against the
// single pick (v2proxy/manager.go pickBestBackend), and the walk down the ladder.
// A backend is its loopback port.

module Aggregate {
  import opened Pool

  datatype Status = Status(index: int, ok: bool, latMs: int, okStreak: nat)

  // ---- the alive list ----

  predicate LatencySorted(alive: seq<Status>) {
    forall i, j | 0 <= i < j < |alive| :: alive[i].latMs <= alive[j].latMs
  }

  function Ok(statuses: seq<Status>): seq<Status> {
    if statuses == [] then []
    else Ok(statuses[..|statuses| - 1]) + (if statuses[|statuses| - 1].ok then [statuses[|statuses| - 1]] else [])
  }

  /** What the library's sort may make of the ok entries: it is not stable, so any
      order of equal latencies will do. */
  predicate AliveView(statuses: seq<Status>, alive: seq<Status>) {
    LatencySorted(alive) && multiset(alive) == multiset(Ok(statuses))
  }

  /** Such an order always exists. */
  lemma {:induction false} CanBeSorted(list: seq<Status>) returns (sorted: seq<Status>)
    ensures LatencySorted(sorted) && multiset(sorted) == multiset(list)
  {
    if list == [] {
      sorted := [];
    } else {
      var n := |list| - 1;
      assert list == list[..n] + [list[n]];
      var front := CanBeSorted(list[..n]);
      sorted := CanBeInserted(list[n], front);
    }
  }

  lemma {:induction false} CanBeInserted(s: Status, list: seq<Status>) returns (longer: seq<Status>)
    requires LatencySorted(list)
    ensures LatencySorted(longer) && multiset(longer) == multiset(list) + multiset{s} && longer != []
    ensures longer[|longer| - 1] == s || (list != [] && longer[|longer| - 1] == list[|list| - 1])
  {
    var n := |list| - 1;
    if list == [] || list[n].latMs <= s.latMs {
      longer := list + [s];
      SortedSnoc(list, s);
    } else {
      assert list == list[..n] + [list[n]];
      var front := CanBeInserted(s, list[..n]);
      longer := front + [list[n]];
      assert front[|front| - 1].latMs <= list[n].latMs;
      SortedSnoc(front, list[n]);
    }
  }

  lemma SortedSnoc(list: seq<Status>, s: Status)
    requires LatencySorted(list) && (list == [] || list[|list| - 1].latMs <= s.latMs)
    ensures LatencySorted(list + [s])
  {
  }

  /** slices.SortFunc: some sorted arrangement of the list, and no particular one. */
  method SortByLatency(list: seq<Status>) returns (sorted: seq<Status>)
    ensures LatencySorted(sorted) && multiset(sorted) == multiset(list)
  {
    ghost var some := CanBeSorted(list);
    assert LatencySorted(some) && multiset(some) == multiset(list);
    sorted :| LatencySorted(sorted) && multiset(sorted) == multiset(list);
  }

  /** Every entry that is ok, as often as it is listed, none that is not, fastest first. */
  method GetAliveStatuses(statuses: seq<Status>) returns (alive: seq<Status>)
    ensures LatencySorted(alive)
    ensures forall s :: multiset(alive)[s] == if s.ok then multiset(statuses)[s] else 0
    ensures AliveView(statuses, alive)
  {
    var listed := [];
    for i := 0 to |statuses|
      invariant listed == Ok(statuses[..i])
    {
      assert statuses[..i + 1][..i] == statuses[..i];
      if statuses[i].ok {
        listed := listed + [statuses[i]];
      }
    }
    assert statuses[..|statuses|] == statuses;
    OkKeepsTheOk(statuses);
    alive := SortByLatency(listed);
  }

  lemma {:induction false} OkKeepsTheOk(statuses: seq<Status>)
    ensures forall s :: multiset(Ok(statuses))[s] == if s.ok then multiset(statuses)[s] else 0
  {
    if statuses != [] {
      var n := |statuses| - 1;
      OkKeepsTheOk(statuses[..n]);
      assert statuses == statuses[..n] + [statuses[n]];
    }
  }

  // ---- the single pick ----

  function FirstQualified(alive: seq<Status>, minStreak: nat): (i: nat)
    ensures i <= |alive|
    ensures forall j | 0 <= j < i :: alive[j].okStreak < minStreak
    ensures i < |alive| ==> alive[i].okStreak >= minStreak
  {
    if alive == [] || alive[0].okStreak >= minStreak then 0 else 1 + FirstQualified(alive[1..], minStreak)
  }

  function Best(alive: seq<Status>, minStreak: nat): Status
    requires alive != []
  {
    var i := FirstQualified(alive, minStreak);
    if i < |alive| then alive[i] else alive[0]
  }

  datatype Side = Socks | Http | Relay

  datatype Ports = Ports(socks: int, http: int, relay: int) {
    function Of(side: Side): int {
      match side
      case Socks => socks
      case Http => http
      case Relay => relay
    }
  }

  predicate HasInstance(s: Status, insts: seq<Ports>) {
    0 <= s.index < |insts|
  }

  /** PickBest answers even with an unset port. */
  method PickBest(alive: seq<Status>, minStreak: nat, insts: seq<Ports>, side: Side) returns (backend: Option<int>)
    ensures alive == [] ==> backend == None
    ensures alive != [] ==>
              var best := Best(alive, minStreak);
              backend == if HasInstance(best, insts) then Some(insts[best.index].Of(side)) else None
  {
    if alive == [] {
      return None;
    }
    var best := alive[0];
    if minStreak > 0 {
      for i := 0 to |alive|
        invariant forall j | 0 <= j < i :: alive[j].okStreak < minStreak
        invariant best == alive[0]
      {
        if alive[i].okStreak >= minStreak {
          best := alive[i];
          break;
        }
      }
    }
    if !HasInstance(best, insts) {
      return None;
    }
    return Some(insts[best.index].Of(side));
  }

  // ---- the ladder ----

  function Tier(alive: seq<Status>, minStreak: nat, qualified: bool): seq<Status> {
    if alive == [] then []
    else
      var s := alive[|alive| - 1];
      Tier(alive[..|alive| - 1], minStreak, qualified) + (if (s.okStreak >= minStreak) == qualified then [s] else [])
  }

  function Order(alive: seq<Status>, minStreak: nat): seq<Status> {
    Tier(alive, minStreak, true) + Tier(alive, minStreak, false)
  }

  method OrderedAlive(alive: seq<Status>, minStreak: nat) returns (order: seq<Status>)
    ensures order == Order(alive, minStreak)
  {
    OneTierOnly(alive, minStreak);
    if alive == [] {
      return [];
    }
    order := alive;
    if minStreak > 0 {
      var qualified, rest := [], [];
      for i := 0 to |alive|
        invariant qualified == Tier(alive[..i], minStreak, true)
        invariant rest == Tier(alive[..i], minStreak, false)
      {
        assert alive[..i + 1][..i] == alive[..i];
        if alive[i].okStreak >= minStreak {
          qualified := qualified + [alive[i]];
        } else {
          rest := rest + [alive[i]];
        }
      }
      assert alive[..|alive|] == alive;
      if |qualified| > 0 {
        order := qualified + rest;
      }
    }
  }

  /** A gate of zero qualifies everyone, and where nobody qualifies the tail is the whole list. */
  lemma {:induction false} OneTierOnly(alive: seq<Status>, minStreak: nat)
    ensures minStreak == 0 ==> Tier(alive, minStreak, true) == alive && Tier(alive, minStreak, false) == []
    ensures Tier(alive, minStreak, true) == [] ==> Tier(alive, minStreak, false) == alive
  {
    if alive != [] {
      OneTierOnly(alive[..|alive| - 1], minStreak);
      assert alive == alive[..|alive| - 1] + [alive[|alive| - 1]];
    }
  }

  /** Qualified before unqualified, and fastest first within each. */
  predicate Before(a: Status, b: Status, minStreak: nat) {
    if a.okStreak >= minStreak && b.okStreak < minStreak then true
    else if a.okStreak < minStreak && b.okStreak >= minStreak then false
    else a.latMs <= b.latMs
  }

  predicate AllIn(tier: seq<Status>, minStreak: nat, qualified: bool) {
    forall i | 0 <= i < |tier| :: (tier[i].okStreak >= minStreak) == qualified
  }

  predicate Ranked(order: seq<Status>, minStreak: nat) {
    forall i, j | 0 <= i < j < |order| :: Before(order[i], order[j], minStreak)
  }

  lemma {:induction false} TierSorted(alive: seq<Status>, minStreak: nat, qualified: bool)
    requires LatencySorted(alive)
    ensures var t := Tier(alive, minStreak, qualified);
            && LatencySorted(t) && (t != [] ==> alive != [] && t[|t| - 1].latMs <= alive[|alive| - 1].latMs)
            && AllIn(t, minStreak, qualified)
  {
    if alive != [] {
      var front, last := alive[..|alive| - 1], alive[|alive| - 1];
      TierSorted(front, minStreak, qualified);
      var f, t := Tier(front, minStreak, qualified), Tier(alive, minStreak, qualified);
      if f != [] {
        assert front[|front| - 1].latMs <= last.latMs;
      }
    }
  }

  lemma {:induction false} TiersPartition(alive: seq<Status>, minStreak: nat)
    ensures multiset(Order(alive, minStreak)) == multiset(alive)
  {
    if alive != [] {
      var front, last := alive[..|alive| - 1], alive[|alive| - 1];
      TiersPartition(front, minStreak);
      assert alive == front + [last];
    }
  }

  lemma {:induction false} TierHead(alive: seq<Status>, minStreak: nat)
    ensures var i := FirstQualified(alive, minStreak);
            var t := Tier(alive, minStreak, true);
            if i < |alive| then t != [] && t[0] == alive[i] else t == []
  {
    if alive != [] {
      var front := alive[..|alive| - 1];
      TierHead(front, minStreak);
      FirstQualifiedSnoc(alive, minStreak);
    }
  }

  lemma FirstQualifiedSnoc(alive: seq<Status>, minStreak: nat)
    requires alive != []
    ensures var n := |alive| - 1;
            var i, j := FirstQualified(alive, minStreak), FirstQualified(alive[..n], minStreak);
            i == if j < n then j else if alive[n].okStreak >= minStreak then n else n + 1
  {
    var n := |alive| - 1;
    var i, j := FirstQualified(alive, minStreak), FirstQualified(alive[..n], minStreak);
    assert j < n ==> alive[..n][j] == alive[j];
    assert i < n ==> alive[..n][i] == alive[i];
  }

  /** The order holds the alive entries, no more and no fewer, qualified first and
      fastest first within a tier, and its head is the single pick's choice. */
  lemma OrderRefinesPick(statuses: seq<Status>, alive: seq<Status>, minStreak: nat)
    requires AliveView(statuses, alive)
    ensures var order := Order(alive, minStreak);
            && multiset(order) == multiset(Ok(statuses))
            && Ranked(order, minStreak)
            && (alive != [] ==> order != [] && order[0] == Best(alive, minStreak))
            && (alive == [] ==> order == [])
  {
    TierSorted(alive, minStreak, true);
    TierSorted(alive, minStreak, false);
    TiersPartition(alive, minStreak);
    TierHead(alive, minStreak);
    OneTierOnly(alive, minStreak);
    OrderSorted(Tier(alive, minStreak, true), Tier(alive, minStreak, false), minStreak);
    if alive == [] {
      assert Order(alive, minStreak) == [];
    }
  }

  lemma OrderSorted(qualified: seq<Status>, rest: seq<Status>, minStreak: nat)
    requires LatencySorted(qualified) && LatencySorted(rest)
    requires AllIn(qualified, minStreak, true) && AllIn(rest, minStreak, false)
    ensures Ranked(qualified + rest, minStreak)
  {
  }

  /** The pick is unbeaten in its view, so the unstable sort can only change which of
      several equally good entries it is. */
  lemma PickIsUnbeaten(statuses: seq<Status>, alive: seq<Status>, minStreak: nat)
    requires AliveView(statuses, alive) && alive != []
    ensures Best(alive, minStreak) in Ok(statuses)
    ensures forall s | s in Ok(statuses) :: Before(Best(alive, minStreak), s, minStreak)
  {
    OrderRefinesPick(statuses, alive, minStreak);
    var order := Order(alive, minStreak);
    assert order[0] in multiset(order) && order[0] in multiset(Ok(statuses));
    forall s | s in Ok(statuses) ensures Before(order[0], s, minStreak) {
      assert s in multiset(Ok(statuses)) && s in multiset(order);
    }
  }

  // ---- ladders: the order's backends, without the undiallable ----

  predicate Diallable(s: Status, insts: seq<Ports>, side: Side) {
    HasInstance(s, insts) && insts[s.index].Of(side) > 0
  }

  function Ladder(order: seq<Status>, insts: seq<Ports>, side: Side): (r: seq<int>)
    ensures |r| <= |order|
  {
    if order == [] then []
    else
      var s := order[|order| - 1];
      Ladder(order[..|order| - 1], insts, side) + (if Diallable(s, insts, side) then [insts[s.index].Of(side)] else [])
  }

  method PortsForOrder(order: seq<Status>, insts: seq<Ports>, side: Side) returns (backends: seq<int>)
    ensures backends == Ladder(order, insts, side)
  {
    backends := [];
    for i := 0 to |order|
      invariant backends == Ladder(order[..i], insts, side)
    {
      assert order[..i + 1][..i] == order[..i];
      var s := order[i];
      if s.index < 0 || s.index >= |insts| {
        continue;
      }
      var port := insts[s.index].Of(side);
      if port <= 0 {
        continue;
      }
      backends := backends + [port];
    }
    assert order[..|order|] == order;
  }

  /** `from` lists the entries the ladder's rungs stand for: rising positions of the
      order, and exactly the diallable ones. */
  ghost predicate Rungs(order: seq<Status>, insts: seq<Ports>, side: Side, from: seq<nat>) {
    var ladder := Ladder(order, insts, side);
    && |from| == |ladder|
    && (forall k | 0 <= k < |from| ::
          from[k] < |order| && Diallable(order[from[k]], insts, side)
          && ladder[k] == insts[order[from[k]].index].Of(side))
    && (forall k, l | 0 <= k < l < |from| :: from[k] < from[l])
    && (forall i | 0 <= i < |order| && Diallable(order[i], insts, side) :: i in from)
  }

  lemma {:induction false} LadderIsSubsequence(order: seq<Status>, insts: seq<Ports>, side: Side)
    returns (from: seq<nat>)
    ensures Rungs(order, insts, side, from)
  {
    from := [];
    if order != [] {
      var n := |order| - 1;
      var front := order[..n];
      from := LadderIsSubsequence(front, insts, side);
      assert forall i | 0 <= i < n :: front[i] == order[i];
      if Diallable(order[n], insts, side) {
        var longer := from + [n];
        forall i | 0 <= i < |order| && Diallable(order[i], insts, side) ensures i in longer {
          if i < n {
            assert Diallable(front[i], insts, side) && i in from;
          }
          assert longer[|from|] == n;
        }
        from := longer;
      } else {
        assert forall i | 0 <= i < |order| && Diallable(order[i], insts, side) :: Diallable(front[i], insts, side);
      }
    }
  }

  /** Failover never changes where a healthy pool lands: whenever the picked entry can
      be dialled, the ladder's first rung is that pick; and the ladder is empty only if
      no alive entry can be dialled, even where the pick alone would have failed. */
  lemma LadderRefinesPick(statuses: seq<Status>, alive: seq<Status>, minStreak: nat, insts: seq<Ports>, side: Side)
    requires AliveView(statuses, alive)
    ensures var ladder := Ladder(Order(alive, minStreak), insts, side);
            && (alive != [] && Diallable(Best(alive, minStreak), insts, side) ==>
                  ladder != [] && ladder[0] == insts[Best(alive, minStreak).index].Of(side))
            && (ladder == [] <==> forall s | s in Ok(statuses) :: !Diallable(s, insts, side))
  {
    var order := Order(alive, minStreak);
    OrderRefinesPick(statuses, alive, minStreak);
    if order != [] && Diallable(order[0], insts, side) {
      LadderHead(order, insts, side);
    }
    LadderEmptyIff(order, insts, side);
    SameMembers(order, Ok(statuses));
  }

  lemma SameMembers(a: seq<Status>, b: seq<Status>)
    requires multiset(a) == multiset(b)
    ensures forall s :: s in a <==> s in b
  {
    forall s ensures s in a <==> s in b {
      assert s in multiset(a) <==> s in multiset(b);
    }
  }

  lemma LadderHead(order: seq<Status>, insts: seq<Ports>, side: Side)
    requires order != [] && Diallable(order[0], insts, side)
    ensures var ladder := Ladder(order, insts, side); ladder != [] && ladder[0] == insts[order[0].index].Of(side)
  {
    var from := LadderIsSubsequence(order, insts, side);
    assert 0 in from;
    var k :| 0 <= k < |from| && from[k] == 0;
  }

  lemma LadderEmptyIff(order: seq<Status>, insts: seq<Ports>, side: Side)
    ensures Ladder(order, insts, side) == [] <==> forall s | s in order :: !Diallable(s, insts, side)
  {
    var from := LadderIsSubsequence(order, insts, side);
    if from != [] {
      assert Diallable(order[from[0]], insts, side);
    } else {
      forall s | s in order ensures !Diallable(s, insts, side) {
        var i :| 0 <= i < |order| && order[i] == s;
        assert i !in from;
      }
    }
  }

  // ---- walking the ladder ----

  const FAILOVER_BUDGET := 5000   // milliseconds, equal to the bridge's one dial
  const CANDIDATE_BUDGET := 750

  datatype Dialled = Accepts(after: nat) | Refuses(after: nat) | Hangs

  /** How one candidate would behave, and how long the walk dawdles before it dials. */
  datatype Candidate = Candidate(dawdle: nat, dial: Dialled)

  /** The dial budget of a candidate reached `elapsed` after the walk began. */
  function Cap(elapsed: nat): nat
    requires elapsed < FAILOVER_BUDGET
  {
    if FAILOVER_BUDGET - elapsed > CANDIDATE_BUDGET then CANDIDATE_BUDGET else FAILOVER_BUDGET - elapsed
  }

  predicate AcceptsWithin(d: Dialled, cap: nat) {
    d.Accepts? && d.after <= cap
  }

  /** How long a dial that is no use takes: until it is refused, or its whole budget. */
  function Wasted(d: Dialled, cap: nat): nat {
    if d.Refuses? && d.after <= cap then d.after else cap
  }

  /** When the walk gets to candidate k if none before it accepted. */
  function Reached(cands: seq<Candidate>, k: nat): nat
    requires k < |cands|
    decreases k
  {
    cands[k].dawdle
    + if k == 0 then 0
      else
        var before := Reached(cands, k - 1);
        if before < FAILOVER_BUDGET then before + Wasted(cands[k - 1].dial, Cap(before)) else before
  }

  /** Candidate k is dialled if the walk gets to it in time ... */
  predicate InTime(cands: seq<Candidate>, k: nat)
    requires k < |cands|
  {
    Reached(cands, k) < FAILOVER_BUDGET
  }

  /** ... and serves if it then accepts within its budget. */
  predicate Serves(cands: seq<Candidate>, k: nat)
    requires k < |cands|
  {
    InTime(cands, k) && AcceptsWithin(cands[k].dial, Cap(Reached(cands, k)))
  }

  /** When the walk is over: as its last dial ends. */
  function Spent(cands: seq<Candidate>, served: Option<nat>, dialled: nat): nat
    requires dialled <= |cands| && forall j | 0 <= j < dialled :: InTime(cands, j)
    requires served.Some? ==> served.value < |cands| && Serves(cands, served.value)
  {
    if served.Some? then Reached(cands, served.value) + cands[served.value].dial.after
    else if dialled == 0 then 0
    else
      assert InTime(cands, dialled - 1);
      Reached(cands, dialled - 1) + Wasted(cands[dialled - 1].dial, Cap(Reached(cands, dialled - 1)))
  }

  class Client {
    var closed: bool
  }

  /** The first candidate that accepts within its budget serves, and the client is closed
      exactly when there is none. `dialled` counts the dials and `spent` is when the last
      one ended. Only direct backends are credited, and only the one that serves. */
  method ServeCandidates(client: Client, backends: seq<int>, cands: seq<Candidate>, trackEgress: bool)
    returns (served: Option<nat>, credited: Option<int>, dialled: nat, spent: nat)
    requires |backends| == |cands| && !client.closed
    modifies client
    ensures served.Some? ==> served.value < |cands| && Serves(cands, served.value)
                             && dialled == served.value + 1
                             && forall j | 0 <= j < served.value :: InTime(cands, j) && !Serves(cands, j)
    ensures served.None? ==> forall j | 0 <= j < |cands| :: !Serves(cands, j)
    ensures client.closed <==> served.None?
    ensures credited == if served.Some? && trackEgress then Some(backends[served.value]) else None
    ensures dialled <= |cands| && (served.None? && dialled < |cands| ==> !InTime(cands, dialled))
    ensures forall j | 0 <= j < dialled :: InTime(cands, j)
    ensures spent <= FAILOVER_BUDGET && spent == Spent(cands, served, dialled)
  {
    served, credited, dialled, spent := None, None, 0, 0;
    if |backends| == 0 {
      client.closed := true;
      return;
    }
    var elapsed := 0;
    for k := 0 to |cands|
      invariant dialled == k && spent == elapsed <= FAILOVER_BUDGET
      invariant k < |cands| ==> Reached(cands, k) == elapsed + cands[k].dawdle
      invariant forall j | 0 <= j < k :: InTime(cands, j) && !Serves(cands, j)
      invariant spent == Spent(cands, None, k)
      invariant !client.closed
    {
      elapsed := elapsed + cands[k].dawdle;
      if elapsed >= FAILOVER_BUDGET {
        forall j | k <= j < |cands| ensures !InTime(cands, j) {
          LateStaysLate(cands, k, j);
        }
        break;
      }
      var budget := FAILOVER_BUDGET - elapsed;
      if budget > CANDIDATE_BUDGET {
        budget := CANDIDATE_BUDGET;
      }
      dialled := k + 1;
      if AcceptsWithin(cands[k].dial, budget) {
        spent := elapsed + cands[k].dial.after;
        served := Some(k);
        credited := if trackEgress then Some(backends[k]) else None;
        return;
      }
      elapsed := elapsed + Wasted(cands[k].dial, budget);
      spent := elapsed;
    }
    client.closed := true;
  }

  /** The relay ladder is walked only while the relay itself is known to be alive. */
  method HandleRelayConn(client: Client, relayAlive: bool, backends: seq<int>, cands: seq<Candidate>)
    returns (served: Option<nat>, credited: Option<int>, dialled: nat, spent: nat)
    requires |backends| == |cands| && !client.closed
    modifies client
    ensures !relayAlive ==> client.closed && served == None && dialled == 0 && spent == 0
    ensures relayAlive ==> (served.None? <==> forall j | 0 <= j < |cands| :: !Serves(cands, j))
    ensures served.Some? ==> served.value < |cands| && Serves(cands, served.value)
                             && forall j | 0 <= j < served.value :: !Serves(cands, j)
    ensures client.closed <==> served.None?
    ensures credited == None && spent <= FAILOVER_BUDGET
  {
    if !relayAlive {
      client.closed := true;
      return None, None, 0, 0;
    }
    served, credited, dialled, spent := ServeCandidates(client, backends, cands, false);
  }

  lemma {:induction false} LateStaysLate(cands: seq<Candidate>, k: nat, j: nat)
    requires k <= j < |cands| && !InTime(cands, k)
    ensures !InTime(cands, j)
  {
    if k < j {
      LateStaysLate(cands, k, j - 1);
    }
  }

  function Dawdled(cands: seq<Candidate>, k: nat): nat
    requires k <= |cands|
  {
    if k == 0 then 0 else Dawdled(cands, k - 1) + cands[k - 1].dawdle
  }

  lemma {:induction false} ReachedBound(cands: seq<Candidate>, k: nat)
    requires k < |cands|
    ensures Reached(cands, k) <= CANDIDATE_BUDGET * k + Dawdled(cands, k + 1)
  {
    if k > 0 {
      ReachedBound(cands, k - 1);
    }
  }

  /** Whatever the others do, and as long as the walk itself wastes less than half a
      second, each of the first seven candidates would be dialled: the first six with
      their full budget, the seventh with what is left of it. */
  lemma FirstSevenAreReached(cands: seq<Candidate>, k: nat)
    requires k < |cands| && k < 7 && Dawdled(cands, k + 1) < 500
    ensures InTime(cands, k)
    ensures k <= 5 ==> Cap(Reached(cands, k)) == CANDIDATE_BUDGET
    ensures k == 6 ==> Cap(Reached(cands, k)) >= 500 - Dawdled(cands, k + 1)
  {
    ReachedBound(cands, k);
  }

  /** Seven is the exact number: when all hang and the walk does not dawdle, the eighth
      is never dialled, and the walk ends on the budget to the millisecond. */
  lemma {:induction false} SevenHangsUseUpTheBudget(cands: seq<Candidate>, k: nat)
    requires k < |cands| && forall j | 0 <= j < |cands| :: cands[j] == Candidate(0, Hangs)
    ensures InTime(cands, k) <==> k < 7
    ensures Reached(cands, k) == if k < 7 then CANDIDATE_BUDGET * k else FAILOVER_BUDGET
  {
    if k > 0 {
      SevenHangsUseUpTheBudget(cands, k - 1);
    }
  }
}
