// CheckURL (v2proxy/urlcheck.go) with any number of concurrent requests: cache
// hits, one leader a key, joiners that wait for it.

module CheckRuns {
  import opened Pool
  import opened CheckCache

  /** `outcome` is set by the flight's one close. */
  datatype Flight = Flight(key: string, leader: nat, depth: nat, outcome: Option<Outcome>)

  datatype Source = Hit(at: int, now: int) | Led(f: nat) | Joined(f: nat)

  datatype Client =
    | Fresh
    | Asked(key: string, depth: nat)
    | Missed(key: string, depth: nat)
    | Leading(key: string, depth: nat, f: nat)
    | Waiting(key: string, depth: nat, f: nat)
    | Answered(key: string, depth: nat, source: Source, answer: Outcome)
    | GaveUp

  datatype State = State(now: int, entries: map<string, Entry>, inflight: map<string, nat>, flights: seq<Flight>,
                         clients: seq<Client>)

  datatype Step =
    | Tick(now: int)
    | Ask(c: nat, key: string, depth: int)
    | Look(c: nat)
    | Begin(c: nat)
    | Finish(c: nat, res: CheckResult, err: bool, kept: map<string, Entry>)
    | Wake(c: nat)
    | Cancel(c: nat)

  function Init(clients: nat): State {
    State(0, map[], map[], [], seq(clients, _ => Fresh))
  }

  ghost predicate Enabled(s: State, step: Step) {
    match step
    case Tick(now) => now >= s.now
    case Ask(c, key, depth) => c < |s.clients| && s.clients[c].Fresh?
    case Look(c) => c < |s.clients| && s.clients[c].Asked?
    case Begin(c) => c < |s.clients| && s.clients[c].Missed?
    // The check reports the URL and depth it was asked for (runURLCheck).
    case Finish(c, res, err, kept) =>
      c < |s.clients| && s.clients[c].Leading? && s.clients[c].f < |s.flights|
      && res.probedURL == s.clients[c].key && res.depth == s.clients[c].depth && !res.cached
      && (!err ==> Evicted(s.entries, kept))
    case Wake(c) => c < |s.clients| && s.clients[c].Waiting? && s.clients[c].f < |s.flights|
                    && s.flights[s.clients[c].f].outcome.Some?
    case Cancel(c) => c < |s.clients| && s.clients[c].Waiting?
  }

  function Clamp(depth: int): nat {
    if depth < 0 then 0 else if depth > CHECK_MAX_DEPTH then CHECK_MAX_DEPTH else depth
  }

  predicate IsHit(s: State, key: string, depth: nat) {
    key in s.entries && s.now - s.entries[key].at <= CHECK_CACHE_TTL && s.entries[key].res.depth >= depth
  }

  ghost function Apply(s: State, step: Step): State
    requires Enabled(s, step)
  {
    match step
    case Tick(now) => s.(now := now)
    case Ask(c, key, depth) => s.(clients := s.clients[c := Asked(key, Clamp(depth))])
    case Look(c) =>
      var Asked(key, depth) := s.clients[c];
      if IsHit(s, key, depth)
      then s.(clients := s.clients[c := Answered(key, depth, Hit(s.entries[key].at, s.now),
                                                 Outcome(s.entries[key].res.(cached := true), false))])
      else s.(clients := s.clients[c := Missed(key, depth)])
    case Begin(c) =>
      var Missed(key, depth) := s.clients[c];
      if key in s.inflight
      then s.(clients := s.clients[c := Waiting(key, depth, s.inflight[key])])
      else s.(clients := s.clients[c := Leading(key, depth, |s.flights|)],
              inflight := s.inflight[key := |s.flights|],
              flights := s.flights + [Flight(key, c, depth, None)])
    case Finish(c, res, err, kept) =>
      var Leading(key, depth, f) := s.clients[c];
      s.(clients := s.clients[c := Answered(key, depth, Led(f), Outcome(res, err))],
         flights := s.flights[f := s.flights[f].(outcome := Some(Outcome(res, err)))],
         entries := if err then s.entries else kept[key := Entry(s.now, res)],
         inflight := s.inflight - {key})
    case Wake(c) =>
      var Waiting(key, depth, f) := s.clients[c];
      var out := s.flights[f].outcome.value;
      s.(clients := s.clients[c := Answered(key, depth, Joined(f), out.(res := out.res.(cached := true)))])
    case Cancel(c) => s.(clients := s.clients[c := GaveUp])
  }

  // ---- the inductive invariant ----

  ghost predicate CacheInv(s: State) {
    && |s.entries| <= CHECK_CACHE_ENTRIES
    && forall k | k in s.entries :: s.entries[k].res.probedURL == k && s.entries[k].at <= s.now
  }

  /** Open flights and the inflight table are the same thing. */
  ghost predicate FlightInv(s: State) {
    && (forall k | k in s.inflight :: s.inflight[k] < |s.flights| && s.flights[s.inflight[k]].key == k
                                      && s.flights[s.inflight[k]].outcome.None?)
    && (forall f | 0 <= f < |s.flights| && s.flights[f].outcome.None? ::
          s.flights[f].key in s.inflight && s.inflight[s.flights[f].key] == f)
    && (forall f | 0 <= f < |s.flights| && s.flights[f].outcome.None? ::
          s.flights[f].leader < |s.clients|
          && s.clients[s.flights[f].leader] == Leading(s.flights[f].key, s.flights[f].depth, f))
    && (forall f | 0 <= f < |s.flights| && s.flights[f].outcome.Some? ::
          s.flights[f].outcome.value.res.probedURL == s.flights[f].key
          && s.flights[f].outcome.value.res.depth == s.flights[f].depth)
  }

  ghost predicate ClientInv(s: State, c: nat)
    requires c < |s.clients|
  {
    match s.clients[c]
    case Leading(key, depth, f) => f < |s.flights| && s.flights[f] == Flight(key, c, depth, None)
    case Waiting(key, depth, f) => f < |s.flights| && s.flights[f].key == key
    case Answered(key, depth, source, answer) =>
      answer.res.probedURL == key
      && (match source
          case Hit(at, now) => !answer.err && at <= now && now - at <= CHECK_CACHE_TTL && answer.res.depth >= depth
          case Led(f) => f < |s.flights| && s.flights[f].key == key && s.flights[f].leader == c
                         && s.flights[f].outcome == Some(answer)
          case Joined(f) => f < |s.flights| && s.flights[f].key == key && s.flights[f].outcome.Some?
                            && answer == s.flights[f].outcome.value.(
                                            res := s.flights[f].outcome.value.res.(cached := true)))
    case _ => true
  }

  ghost predicate Inv(s: State) {
    && CacheInv(s) && FlightInv(s)
    && forall c | 0 <= c < |s.clients| :: ClientInv(s, c)
  }

  /** Flights are never removed, never reopened, and never answer twice. */
  ghost predicate FlightsGrow(s: State, t: State) {
    && |s.flights| <= |t.flights|
    && (forall f | 0 <= f < |s.flights| ::
          && t.flights[f].key == s.flights[f].key && t.flights[f].leader == s.flights[f].leader
          && t.flights[f].depth == s.flights[f].depth
          && (s.flights[f].outcome.Some? ==> t.flights[f] == s.flights[f]))
  }

  lemma ClientFrame(s: State, t: State, c: nat)
    requires c < |s.clients| == |t.clients| && t.clients[c] == s.clients[c] && ClientInv(s, c) && FlightsGrow(s, t)
    requires s.clients[c].Leading? ==> s.clients[c].f < |t.flights| && t.flights[s.clients[c].f].outcome.None?
    ensures ClientInv(t, c)
  {
  }

  lemma StepCache(s: State, step: Step)
    requires Inv(s) && Enabled(s, step)
    ensures CacheInv(Apply(s, step))
  {
    if step.Finish? && !step.err {
      GrowByOne(step.kept, s.clients[step.c].key, Entry(s.now, step.res));
    }
  }

  lemma SameFlights(s: State, t: State, c: nat)
    requires FlightInv(s) && t.flights == s.flights && t.inflight == s.inflight
    requires c < |s.clients| == |t.clients| && !s.clients[c].Leading?
    requires forall d | 0 <= d < |s.clients| && d != c :: t.clients[d] == s.clients[d]
    ensures FlightInv(t)
  {
  }

  lemma NewFlight(s: State, t: State, c: nat, key: string, depth: nat)
    requires FlightInv(s) && key !in s.inflight && c < |s.clients| && !s.clients[c].Leading?
    requires t.flights == s.flights + [Flight(key, c, depth, None)] && t.inflight == s.inflight[key := |s.flights|]
    requires t.clients == s.clients[c := Leading(key, depth, |s.flights|)]
    ensures FlightInv(t)
  {
  }

  lemma CloseFlight(s: State, t: State, c: nat, out: Outcome)
    requires FlightInv(s) && c < |s.clients| && ClientInv(s, c) && s.clients[c].Leading?
    requires out.res.probedURL == s.clients[c].key && out.res.depth == s.clients[c].depth
    requires var f := s.clients[c].f;
             && t.flights == s.flights[f := s.flights[f].(outcome := Some(out))]
             && t.inflight == s.inflight - {s.clients[c].key}
             && |t.clients| == |s.clients| && forall d | 0 <= d < |s.clients| && d != c :: t.clients[d] == s.clients[d]
    ensures FlightInv(t)
  {
    var f := s.clients[c].f;
    assert s.inflight[s.clients[c].key] == f;
    forall g | 0 <= g < |t.flights| && t.flights[g].outcome.None?
      ensures g != f && t.flights[g] == s.flights[g] && s.flights[g].key != s.clients[c].key && s.flights[g].leader != c
    {
    }
  }

  lemma FinishFlights(s: State, c: nat, res: CheckResult, err: bool, kept: map<string, Entry>)
    requires FlightInv(s) && Enabled(s, Finish(c, res, err, kept)) && ClientInv(s, c)
    ensures FlightInv(Apply(s, Finish(c, res, err, kept)))
  {
    CloseFlight(s, Apply(s, Finish(c, res, err, kept)), c, Outcome(res, err));
  }

  lemma BeginFlights(s: State, c: nat)
    requires FlightInv(s) && Enabled(s, Begin(c))
    ensures FlightInv(Apply(s, Begin(c)))
  {
    var t := Apply(s, Begin(c));
    if s.clients[c].key in s.inflight {
      SameFlights(s, t, c);
    } else {
      NewFlight(s, t, c, s.clients[c].key, s.clients[c].depth);
    }
  }

  lemma StepFlights(s: State, step: Step)
    requires FlightInv(s) && Enabled(s, step)
    requires !step.Tick? ==> ClientInv(s, step.c)
    ensures FlightInv(Apply(s, step))
  {
    match step
    case Tick(_) =>
    case Finish(c, res, err, kept) => FinishFlights(s, c, res, err, kept);
    case Begin(c) => BeginFlights(s, c);
    case _ => SameFlights(s, Apply(s, step), step.c);
  }

  lemma StepGrows(s: State, step: Step)
    requires Enabled(s, step)
    requires !step.Tick? ==> ClientInv(s, step.c)
    ensures FlightsGrow(s, Apply(s, step))
    ensures |Apply(s, step).clients| == |s.clients|
    ensures forall c | 0 <= c < |s.clients| && (step.Tick? || c != step.c) :: Apply(s, step).clients[c] == s.clients[c]
  {
  }

  lemma ActorClient(s: State, step: Step)
    requires Inv(s) && Enabled(s, step) && !step.Tick?
    ensures ClientInv(Apply(s, step), step.c)
  {
    assert ClientInv(s, step.c);
  }

  lemma OthersStillLead(s: State, step: Step, c: nat)
    requires Inv(s) && Enabled(s, step) && c < |s.clients| && (step.Tick? || c != step.c) && s.clients[c].Leading?
    ensures s.clients[c].f < |Apply(s, step).flights| && Apply(s, step).flights[s.clients[c].f].outcome.None?
  {
    assert ClientInv(s, c);
    if step.Finish? {
      assert ClientInv(s, step.c);
    }
  }

  lemma StepClients(s: State, step: Step)
    requires Inv(s) && Enabled(s, step)
    ensures forall c | 0 <= c < |s.clients| :: ClientInv(Apply(s, step), c)
  {
    var t := Apply(s, step);
    if !step.Tick? {
      assert ClientInv(s, step.c);
      ActorClient(s, step);
    }
    StepGrows(s, step);
    forall c | 0 <= c < |s.clients| && (step.Tick? || c != step.c)
      ensures ClientInv(t, c)
    {
      assert ClientInv(s, c);
      if s.clients[c].Leading? {
        OthersStillLead(s, step, c);
      }
      ClientFrame(s, t, c);
    }
  }

  lemma StepInv(s: State, step: Step)
    requires Inv(s) && Enabled(s, step)
    ensures Inv(Apply(s, step)) && FlightsGrow(s, Apply(s, step)) && |Apply(s, step).clients| == |s.clients|
  {
    if !step.Tick? {
      assert ClientInv(s, step.c);
    }
    StepCache(s, step);
    StepFlights(s, step);
    StepGrows(s, step);
    StepClients(s, step);
  }

  // ---- whole runs ----

  ghost predicate Runnable(s: State, run: seq<Step>)
    decreases |run|
  {
    run == [] || (Enabled(s, run[0]) && Runnable(Apply(s, run[0]), run[1..]))
  }

  ghost function After(s: State, run: seq<Step>): State
    requires Runnable(s, run)
    decreases |run|
  {
    if run == [] then s else After(Apply(s, run[0]), run[1..])
  }

  lemma {:induction false} RunInv(s: State, run: seq<Step>)
    requires Inv(s) && Runnable(s, run)
    ensures Inv(After(s, run)) && FlightsGrow(s, After(s, run)) && |After(s, run).clients| == |s.clients|
    decreases |run|
  {
    if run != [] {
      StepInv(s, run[0]);
      RunInv(Apply(s, run[0]), run[1..]);
    }
  }

  /** Over any run of any number of requests: at most one open flight and one leader
      a key; the cache never exceeds its cap and never files a result under another
      URL; a hit is fresh and at least as deep as asked; a leader's answer is its
      flight's; and every joiner's answer, value and error, is that of the flight it joined. */
  lemma SingleFlight(clients: nat, run: seq<Step>)
    requires Runnable(Init(clients), run)
    ensures var s := After(Init(clients), run);
            && (forall f, g | 0 <= f < |s.flights| && 0 <= g < |s.flights| && s.flights[f].outcome.None?
                              && s.flights[g].outcome.None? && s.flights[f].key == s.flights[g].key :: f == g)
            && (forall b, c | 0 <= b < |s.clients| && 0 <= c < |s.clients| && s.clients[b].Leading?
                              && s.clients[c].Leading?
                              && s.clients[b].key == s.clients[c].key :: b == c)
            && |s.entries| <= CHECK_CACHE_ENTRIES
            && (forall k | k in s.entries :: s.entries[k].res.probedURL == k)
            && (forall c | 0 <= c < |s.clients| :: ClientInv(s, c))
            // Nobody waits in vain: a flight that is still open has a leader at work on it.
            && (forall c | 0 <= c < |s.clients| && s.clients[c].Waiting? ::
                  && s.clients[c].f < |s.flights|
                  && (s.flights[s.clients[c].f].outcome.None? ==>
                        s.flights[s.clients[c].f].leader < |s.clients|
                          && s.clients[s.flights[s.clients[c].f].leader].Leading?))
  {
    RunInv(Init(clients), run);
    var s := After(Init(clients), run);
    forall c | 0 <= c < |s.clients| && s.clients[c].Waiting?
      ensures s.clients[c].f < |s.flights|
    {
      assert ClientInv(s, c);
    }
    forall b, c | 0 <= b < |s.clients| && 0 <= c < |s.clients| && s.clients[b].Leading? && s.clients[c].Leading?
                  && s.clients[b].key == s.clients[c].key
      ensures b == c
    {
      assert ClientInv(s, b) && ClientInv(s, c);
    }
  }

  /** Errors are never stored, and a finished key can be led again at once. */
  lemma FinishLeavesRoom(s: State, c: nat, res: CheckResult, err: bool, kept: map<string, Entry>, d: nat, depth: nat)
    requires Inv(s) && Enabled(s, Finish(c, res, err, kept))
    requires d < |s.clients| && s.clients[d] == Missed(s.clients[c].key, depth)
    ensures var t := Apply(s, Finish(c, res, err, kept));
            && (err ==> t.entries == s.entries)
            && Enabled(t, Begin(d)) && Apply(t, Begin(d)).clients[d].Leading?
  {
  }

  /** A joiner is promised nothing about depth: its answer is deep enough exactly
      when the flight it happened to join was started for at least that depth. */
  lemma JoinedDepthIff(clients: nat, run: seq<Step>, c: nat)
    requires Runnable(Init(clients), run) && c < |After(Init(clients), run).clients|
    requires var a := After(Init(clients), run).clients[c]; a.Answered? && a.source.Joined?
    ensures var s := After(Init(clients), run);
            var a := s.clients[c];
            && a.source.f < |s.flights|
            && a.answer.res.depth == s.flights[a.source.f].depth
            && (a.answer.res.depth >= a.depth <==> s.flights[a.source.f].depth >= a.depth)
  {
    RunInv(Init(clients), run);
    assert ClientInv(After(Init(clients), run), c);
  }

  lemma {:induction false} Append(s: State, run: seq<Step>, step: Step)
    requires Runnable(s, run) && Enabled(After(s, run), step)
    ensures Runnable(s, run + [step]) && After(s, run + [step]) == Apply(After(s, run), step)
    decreases |run|
  {
    if run == [] {
      assert run + [step] == [step];
      assert [step][1..] == [];
    } else {
      Append(Apply(s, run[0]), run[1..], step);
      assert (run + [step])[1..] == run[1..] + [step];
    }
  }

  /** A depth-32 request answered, without error, by a depth-0 check: it joined. */
  lemma ShallowAnswerToDeepRequest(key: string) returns (run: seq<Step>)
    ensures Runnable(Init(2), run)
    ensures var s := After(Init(2), run);
            && |s.clients| == 2 && s.clients[1].Answered? && s.clients[1].depth == 32
            && !s.clients[1].answer.err && s.clients[1].answer.res.depth == 0
  {
    var res := CheckResult(key, 0, [], [], false);
    run := [];
    var s := Init(2);
    run, s := Then(run, s, Ask(0, key, 0));
    run, s := Then(run, s, Ask(1, key, 32));
    run, s := Then(run, s, Look(0));
    run, s := Then(run, s, Look(1));
    run, s := Then(run, s, Begin(0));
    run, s := Then(run, s, Begin(1));
    assert Evicted(s.entries, s.entries);
    run, s := Then(run, s, Finish(0, res, false, s.entries));
    run, s := Then(run, s, Wake(1));
  }

  lemma Then(run: seq<Step>, s: State, step: Step) returns (run': seq<Step>, s': State)
    requires Runnable(Init(2), run) && After(Init(2), run) == s && Enabled(s, step)
    ensures Runnable(Init(2), run') && After(Init(2), run') == s' && s' == Apply(s, step)
  {
    Append(Init(2), run, step);
    run', s' := run + [step], Apply(s, step);
  }
}
