// CheckURL (v2proxy/urlcheck.go) on the shared cache object: every request is one
// client of the CheckRuns system, and every touch of the cache one of its steps.

module CheckServer {
  import opened Pool
  import opened CheckCache
  import Runs = CheckRuns

  /** The cache, and the state of the system that it is an image of: `flights` are the
      flight objects ever handed out, in order, and `number` is each one's place in it. */
  class Server {
    const cache: UrlCheckCache
    var clock: int
    ghost var flights: seq<CheckFlight>
    ghost var number: map<CheckFlight, nat>
    ghost var s: Runs.State

    ghost predicate Valid()
      reads this, cache, number.Keys
    {
      && Reachable(s) && s.now == clock
      && cache.entries == s.entries
      && Tracked(s.flights, s.inflight)
    }

    /** The flight objects and the inflight table are those of the system. */
    ghost predicate Tracked(record: seq<Runs.Flight>, ids: map<string, nat>)
      reads this`flights, this`number, cache, number.Keys
    {
      && |flights| == |record| && Linked(cache.inflight, flights, number, ids)
      && (forall f | 0 <= f < |flights| :: Same(flights[f], record[f].outcome))
    }

    static ghost predicate Same(f: CheckFlight, outcome: Option<Outcome>)
      reads f
    {
      (f.done <==> outcome.Some?) && (f.done ==> outcome.value == Outcome(f.res, f.err))
    }

    constructor (ghost clients: nat)
      ensures Valid() && s == Runs.Init(clients) && fresh(cache)
    {
      cache := new UrlCheckCache();
      clock, flights, number, s := 0, [], map[], Runs.Init(clients);
      assert Runs.Runnable(Runs.Init(clients), []);
    }

    /** Other requests run and time passes: callers know no more than this. */
    method Others(ghost c: nat)
      requires Valid() && c < |s.clients|
      modifies this, cache, number.Keys
      ensures Valid() && |s.clients| == old(|s.clients|) && s.clients[c] == old(s.clients[c])
      ensures old(flights) <= flights && fresh(number.Keys - old(number.Keys)) && Runs.FlightsGrow(old(s), s)
    {
    }

    /** A step that leaves cache and flights alone. */
    ghost method Note(step: Runs.Step)
      requires Valid() && Runs.Enabled(s, step)
      requires step.Ask? || step.Look? || step.Wake? || step.Cancel?
      modifies this`s
      ensures Valid() && s == Runs.Apply(old(s), step) && |s.clients| == old(|s.clients|)
    {
      Reached(s, step);
      s := Runs.Apply(s, step);
    }

    method Look(ghost c: nat, key: string, depth: nat) returns (hit: Option<CheckResult>)
      requires Valid() && c < |s.clients| && s.clients[c] == Runs.Asked(key, depth)
      modifies this`s
      ensures Valid() && |s.clients| == old(|s.clients|)
      ensures if hit.Some? then s.clients[c].Answered? && s.clients[c].key == key && s.clients[c].depth == depth
                                && s.clients[c].source.Hit? && s.clients[c].answer == Outcome(hit.value, false)
              else s.clients[c] == Runs.Missed(key, depth)
    {
      hit := cache.Get(key, clock);
      if hit.Some? && hit.value.depth < depth {
        hit := None;
      }
      Note(Runs.Look(c));
    }

    method Begin(ghost c: nat, key: string, ghost depth: nat) returns (f: CheckFlight, leader: bool, ghost n: nat)
      requires Valid() && c < |s.clients| && s.clients[c] == Runs.Missed(key, depth)
      modifies this, cache
      ensures Valid() && |s.clients| == old(|s.clients|) && n < |flights| && flights[n] == f
      ensures s.clients[c] == if leader then Runs.Leading(key, depth, n) else Runs.Waiting(key, depth, n)
      ensures fresh(number.Keys - old(number.Keys))
    {
      ghost var t;
      n, t := BeginStep(s, c, key, depth);
      ghost var inflight := cache.inflight;
      f, leader := cache.Begin(key);
      if leader {
        LinkNew(inflight, flights, number, s.inflight, key, f);
        flights, number := flights + [f], number[f := n];
      }
      s := t;
    }

    method Finish(ghost c: nat, key: string, ghost depth: nat, f: CheckFlight, res: CheckResult, err: bool,
                  ghost n: nat)
      requires Valid() && c < |s.clients| && s.clients[c] == Runs.Leading(key, depth, n)
      requires n < |flights| && flights[n] == f
      requires res.probedURL == key && res.depth == depth && !res.cached
      modifies this, cache, f
      ensures Valid()
      ensures |s.clients| == old(|s.clients|)
      ensures s.clients[c] == Runs.Answered(key, depth, Runs.Led(n), Outcome(res, err))
    {
      AtWork(s, c);
      ghost var kept := Land(key, f, res, err, n);
      Settle(c, key, depth, res, err, n, kept);
    }

    /** The system's half. */
    ghost method Settle(c: nat, key: string, depth: nat, res: CheckResult, err: bool, n: nat, kept: map<string, Entry>)
      requires Reachable(s) && s.now == clock && c < |s.clients| && s.clients[c] == Runs.Leading(key, depth, n)
               && n < |s.flights|
      requires res.probedURL == key && res.depth == depth && !res.cached && (!err ==> Evicted(s.entries, kept))
      requires cache.entries == if err then s.entries else kept[key := Entry(clock, res)]
      requires Tracked(s.flights[n := s.flights[n].(outcome := Some(Outcome(res, err)))], s.inflight - {key})
      modifies this`s
      ensures Valid() && |s.clients| == old(|s.clients|)
      ensures s.clients[c] == Runs.Answered(key, depth, Runs.Led(n), Outcome(res, err))
    {
      s := FinishStep(s, c, key, depth, n, res, err, kept);
    }

    /** The cache's half of it: one flight object closes, and the table forgets it. */
    method Land(key: string, f: CheckFlight, res: CheckResult, err: bool, ghost n: nat)
      returns (ghost kept: map<string, Entry>)
      requires cache.entries == s.entries && |s.entries| <= CHECK_CACHE_ENTRIES && Tracked(s.flights, s.inflight)
      requires n < |flights| && flights[n] == f && s.flights[n].outcome.None?
      modifies cache, f
      ensures cache.entries == if err then s.entries else kept[key := Entry(clock, res)]
      ensures !err ==> Evicted(s.entries, kept)
      ensures Tracked(s.flights[n := s.flights[n].(outcome := Some(Outcome(res, err)))], s.inflight - {key})
    {
      Unlink(cache.inflight, flights, number, s.inflight, key);
      assert forall g | 0 <= g < |flights| && g != n :: flights[g] != f;
      kept := StoreAndClose(key, f, res, err);
    }

    /** The call into the cache, and what eviction kept. */
    method StoreAndClose(key: string, f: CheckFlight, res: CheckResult, err: bool)
      returns (ghost kept: map<string, Entry>)
      requires |cache.entries| <= CHECK_CACHE_ENTRIES && !f.done
      modifies cache, f
      ensures f.done && f.res == res && f.err == err && cache.inflight == old(cache.inflight) - {key}
      ensures cache.entries == if err then old(cache.entries) else kept[key := Entry(clock, res)]
      ensures !err ==> Evicted(old(cache.entries), kept)
    {
      cache.Finish(key, f, res, err, clock);
      kept := map[];
      if !err {
        kept :| Evicted(old(cache.entries), kept) && cache.entries == kept[key := Entry(clock, res)];
      }
    }

    /** One request: the cache, or the flight in the air, or the check itself. `res` and
        `err` are what the check would come to; `cancelled`, whether the caller hangs up
        while it waits for somebody else's. */
    method CheckURL(ghost c: nat, key: string, depth: int, res: CheckResult, err: bool, cancelled: bool)
      returns (answer: Option<Outcome>)
      requires Valid() && c < |s.clients| && s.clients[c].Fresh?
      requires res.probedURL == key && res.depth == Runs.Clamp(depth) && !res.cached
      modifies this, cache, number.Keys
      ensures Valid() && c < |s.clients|
      ensures answer.None? ==> s.clients[c].GaveUp?
      ensures answer.Some? ==> Served(s.clients[c], key, Runs.Clamp(depth), answer.value)
      ensures answer.Some? && s.clients[c].source.Led? ==> answer.value == Outcome(res, err)
    {
      Note(Runs.Ask(c, key, depth));
      Others(c);
      var hit := Look(c, key, Runs.Clamp(depth));
      if hit.Some? {
        return Some(Outcome(hit.value, false));
      }
      answer := Fly(c, key, Runs.Clamp(depth), res, err, cancelled);
    }

    /** The half of a request that missed the cache: lead, or join and wait. */
    method Fly(ghost c: nat, key: string, ghost depth: nat, res: CheckResult, err: bool, cancelled: bool)
      returns (answer: Option<Outcome>)
      requires Valid() && c < |s.clients| && s.clients[c] == Runs.Missed(key, depth)
      requires res.probedURL == key && res.depth == depth && !res.cached
      modifies this, cache, number.Keys
      ensures Valid() && c < |s.clients|
      ensures answer.None? ==> s.clients[c].GaveUp?
      ensures answer.Some? ==> Served(s.clients[c], key, depth, answer.value)
      ensures answer.Some? && s.clients[c].source.Led? ==> answer.value == Outcome(res, err)
    {
      Others(c);
      ghost var n;
      var f, leader;
      f, leader, n := Begin(c, key, depth);
      Others(c);
      if leader {
        Finish(c, key, depth, f, res, err, n);
        return Some(Outcome(res, err));
      }
      if cancelled || !f.done {
        Note(Runs.Cancel(c));
        return None;
      }
      answer := Wake(c, key, depth, f, n);
    }

    /** The flight a request waits for has landed. */
    method Wake(ghost c: nat, ghost key: string, ghost depth: nat, f: CheckFlight, ghost n: nat)
      returns (answer: Option<Outcome>)
      requires Valid() && c < |s.clients| && s.clients[c] == Runs.Waiting(key, depth, n)
      requires n < |flights| && flights[n] == f && f.done
      modifies this`s
      ensures Valid() && c < |s.clients| && answer.Some? && Served(s.clients[c], key, depth, answer.value)
      ensures s.clients[c].source == Runs.Joined(n)
    {
      AtWork(s, c);
      assert Same(flights[n], s.flights[n].outcome);
      Note(Runs.Wake(c));
      return Some(Outcome(f.res.(cached := true), f.err));
    }
  }

  /** The inflight table holds the flight objects that the system's table numbers. */
  ghost predicate Linked(inflight: map<string, CheckFlight>, flights: seq<CheckFlight>, number: map<CheckFlight, nat>,
                         ids: map<string, nat>) {
    && (forall f | 0 <= f < |flights| :: flights[f] in number && number[flights[f]] == f)
    && inflight.Keys == ids.Keys
    && (forall k | k in ids :: ids[k] < |flights| && inflight[k] == flights[ids[k]])
  }

  lemma Unlink(inflight: map<string, CheckFlight>, flights: seq<CheckFlight>, number: map<CheckFlight, nat>,
               ids: map<string, nat>, key: string)
    requires Linked(inflight, flights, number, ids)
    ensures Linked(inflight - {key}, flights, number, ids - {key})
  {
  }

  lemma LinkNew(inflight: map<string, CheckFlight>, flights: seq<CheckFlight>, number: map<CheckFlight, nat>,
                ids: map<string, nat>,
                key: string, f: CheckFlight)
    requires Linked(inflight, flights, number, ids) && f !in flights
    ensures Linked(inflight[key := f], flights + [f], number[f := |flights|], ids[key := |flights|])
  {
  }

  /** The system's client got just what the caller got. */
  predicate Served(client: Runs.Client, key: string, depth: nat, answer: Outcome) {
    client.Answered? && client.key == key && client.depth == depth && client.answer == answer
  }

  /** The system can get there from its start. */
  ghost predicate Reachable(s: Runs.State) {
    exists clients, run :: Runs.Runnable(Runs.Init(clients), run) && Runs.After(Runs.Init(clients), run) == s
  }

  lemma Reached(s: Runs.State, step: Runs.Step)
    requires Reachable(s) && Runs.Enabled(s, step)
    ensures Reachable(Runs.Apply(s, step)) && |Runs.Apply(s, step).clients| == |s.clients|
  {
    var clients, run :| Runs.Runnable(Runs.Init(clients), run) && Runs.After(Runs.Init(clients), run) == s;
    Runs.Append(Runs.Init(clients), run, step);
    assert Runs.Runnable(Runs.Init(clients), run + [step]);
  }

  /** Whoever leads or waits has a flight of its key; a leader's is open and the one in the table. */
  lemma AtWork(s: Runs.State, c: nat)
    requires Reachable(s) && c < |s.clients| && (s.clients[c].Leading? || s.clients[c].Waiting?)
    ensures var f := s.clients[c].f;
            && f < |s.flights| && s.flights[f].key == s.clients[c].key
            && (s.clients[c].Leading? ==>
                  s.flights[f].outcome.None? && s.clients[c].key in s.inflight && s.inflight[s.clients[c].key] == f)
    ensures |s.entries| <= CHECK_CACHE_ENTRIES
  {
    var clients, run :| Runs.Runnable(Runs.Init(clients), run) && Runs.After(Runs.Init(clients), run) == s;
    Runs.RunInv(Runs.Init(clients), run);
    assert Runs.ClientInv(s, c);
  }

  /** A begin step: what it changes, and nothing else. */
  lemma BeginStep(s: Runs.State, c: nat, key: string, depth: nat) returns (n: nat, t: Runs.State)
    requires Reachable(s) && c < |s.clients| && s.clients[c] == Runs.Missed(key, depth)
    ensures n == if key in s.inflight then s.inflight[key] else |s.flights|
    ensures Reachable(t) && t.now == s.now && t.entries == s.entries && |t.clients| == |s.clients|
    ensures if key in s.inflight
            then t.flights == s.flights && t.inflight == s.inflight && t.clients[c] == Runs.Waiting(key, depth, n)
            else t.flights == s.flights + [Runs.Flight(key, c, depth, None)] && t.inflight == s.inflight[key := n]
                 && t.clients[c] == Runs.Leading(key, depth, n)
  {
    n := if key in s.inflight then s.inflight[key] else |s.flights|;
    Reached(s, Runs.Begin(c));
    t := Runs.Apply(s, Runs.Begin(c));
  }

  /** A finish step, likewise. */
  lemma FinishStep(s: Runs.State, c: nat, key: string, depth: nat, n: nat, res: CheckResult, err: bool,
                   kept: map<string, Entry>)
    returns (t: Runs.State)
    requires Reachable(s) && c < |s.clients| && s.clients[c] == Runs.Leading(key, depth, n) && n < |s.flights|
    requires res.probedURL == key && res.depth == depth && !res.cached && (!err ==> Evicted(s.entries, kept))
    ensures Reachable(t) && t.now == s.now && |t.clients| == |s.clients|
    ensures t.clients[c] == Runs.Answered(key, depth, Runs.Led(n), Outcome(res, err))
    ensures t.flights == s.flights[n := s.flights[n].(outcome := Some(Outcome(res, err)))]
    ensures t.entries == (if err then s.entries else kept[key := Entry(s.now, res)]) && t.inflight == s.inflight - {key}
  {
    var step := Runs.Finish(c, res, err, kept);
    Reached(s, step);
    t := Runs.Apply(s, step);
  }
}
