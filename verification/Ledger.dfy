// The populate ledger (v2proxy/selector.go probeShared, tryConfigs, startShared;
// v2proxy/manager.go Start): how many workers claim, probe, reject and adopt
// configs at once, over any number of rounds.

module Ledger {

  /** Where a worker stands in its own list: pass 1 respects bad marks, pass 2 retries them. */
  datatype Cursor = Cursor(pass: nat, i: nat, exclude: set<string>, skipped: nat)

  datatype Phase =
    | Idle                                        // between attempts of this round
    | Scanning(c: Cursor)                         // top of the candidate loop
    | Checked(c: Cursor, seen: set<string>)       // not excluded, not bad when looked at; `seen` was bad then
    | Probing(c: Cursor, seen: set<string>)       // holds the claim
    | Releasing(c: Cursor)                        // verdict recorded, claim still held
    | Stopping(c: Cursor)                         // claim returned, child not yet stopped
    | Won(key: string)                            // startShared succeeded, not yet recorded
    | Owned(key: string)                          // recorded this round
    | Settled(key: string)                        // recorded in an earlier round
    | GaveUp                                      // done with this round, empty-handed

  datatype Worker = Worker(order: seq<string>, phase: Phase)

  datatype State = State(used: map<string, nat>, bad: set<string>, claimed: set<string>, workers: seq<Worker>)

  datatype Step =
    | Begin(w: nat)              // snapshot `used`, enter startShared
    | SkipExcluded(w: nat)
    | SkipBad(w: nat)
    | Check(w: nat)
    | LoseClaim(w: nat)
    | Claim(w: nat)
    | Adopt(w: nat)
    | Reject(w: nat)             // markBad
    | Throttled(w: nat)          // the probe target refused us: unproven, not counted
    | Silent(w: nat)             // live child that never bound: unproven, counted
    | Release(w: nat)            // unclaim
    | StopChild(w: nat)
    | Retry(w: nat)
    | GiveUp(w: nat)
    | Record(w: nat)
    | RecordDuplicate(w: nat)    // "taken by another instance"
    | NewRound(orders: seq<seq<string>>)

  function Init(instances: nat): State {
    State(map[], {}, {}, seq(instances, _ => Worker([], GaveUp)))
  }

  predicate OverFor(ph: Phase) {
    ph.GaveUp? || ph.Owned? || ph.Settled?
  }

  predicate Ready(s: State, w: nat) {
    w < |s.workers| && s.workers[w].phase.Scanning? && s.workers[w].phase.c.i < |s.workers[w].order|
  }

  function KeyAt(wk: Worker): string
    requires wk.phase.Scanning? || wk.phase.Checked? || wk.phase.Probing? || wk.phase.Releasing?
    requires wk.phase.c.i < |wk.order|
  {
    wk.order[wk.phase.c.i]
  }

  predicate Enabled(s: State, step: Step) {
    match step
    case Begin(w) => w < |s.workers| && s.workers[w].phase.Idle?
    case SkipExcluded(w) => Ready(s, w) && KeyAt(s.workers[w]) in s.workers[w].phase.c.exclude
    case SkipBad(w) => Ready(s, w) && KeyAt(s.workers[w]) !in s.workers[w].phase.c.exclude
                       && s.workers[w].phase.c.pass == 1 && KeyAt(s.workers[w]) in s.bad
    case Check(w) => Ready(s, w) && KeyAt(s.workers[w]) !in s.workers[w].phase.c.exclude
                     && (s.workers[w].phase.c.pass == 1 ==> KeyAt(s.workers[w]) !in s.bad)
    case LoseClaim(w) => w < |s.workers| && s.workers[w].phase.Checked? && s.workers[w].phase.c.i < |s.workers[w].order|
                         && KeyAt(s.workers[w]) in s.claimed
    case Claim(w) => w < |s.workers| && s.workers[w].phase.Checked? && s.workers[w].phase.c.i < |s.workers[w].order|
                     && KeyAt(s.workers[w]) !in s.claimed
    case Adopt(w) => IsProbing(s, w)
    case Reject(w) => IsProbing(s, w)
    case Throttled(w) => IsProbing(s, w)
    case Silent(w) => IsProbing(s, w)
    case Release(w) => w < |s.workers| && s.workers[w].phase.Releasing? && s.workers[w].phase.c.i < |s.workers[w].order|
    case StopChild(w) => w < |s.workers| && s.workers[w].phase.Stopping?
    // The loop ends at the end of the list or, anywhere, at the deadline.
    case Retry(w) => w < |s.workers| && s.workers[w].phase.Scanning?
                     && s.workers[w].phase.c.pass == 1 && s.workers[w].phase.c.skipped > 0
    case GiveUp(w) => w < |s.workers| && s.workers[w].phase.Scanning?
                      && (s.workers[w].phase.c.pass == 1 ==> s.workers[w].phase.c.skipped == 0)
    case Record(w) => w < |s.workers| && s.workers[w].phase.Won? && s.workers[w].phase.key !in s.used
    case RecordDuplicate(w) => w < |s.workers| && s.workers[w].phase.Won? && s.workers[w].phase.key in s.used
    case NewRound(orders) => |orders| == |s.workers| && forall w | 0 <= w < |s.workers| :: OverFor(s.workers[w].phase)
  }

  predicate IsProbing(s: State, w: nat) {
    w < |s.workers| && s.workers[w].phase.Probing? && s.workers[w].phase.c.i < |s.workers[w].order|
  }

  function Next(c: Cursor): Cursor {
    c.(i := c.i + 1)
  }

  function Counted(c: Cursor): Cursor {
    if c.pass == 1 then c.(skipped := c.skipped + 1) else c
  }

  function To(s: State, w: nat, ph: Phase): State
    requires w < |s.workers|
  {
    s.(workers := s.workers[w := s.workers[w].(phase := ph)])
  }

  function Fresh(wk: Worker, order: seq<string>): Worker {
    match wk.phase
    case GaveUp => Worker(order, Idle)
    case Owned(key) => wk.(phase := Settled(key))
    case _ => wk
  }

  function Apply(s: State, step: Step): State
    requires Enabled(s, step)
  {
    match step
    case Begin(w) => To(s, w, Scanning(Cursor(1, 0, s.used.Keys, 0)))
    case SkipExcluded(w) => To(s, w, Scanning(Next(s.workers[w].phase.c)))
    case SkipBad(w) => To(s, w, Scanning(Next(Counted(s.workers[w].phase.c))))
    case Check(w) => To(s, w, Checked(s.workers[w].phase.c, s.bad))
    case LoseClaim(w) => To(s, w, Scanning(Next(s.workers[w].phase.c)))
    case Claim(w) => To(s, w, Probing(s.workers[w].phase.c, s.workers[w].phase.seen))
                     .(claimed := s.claimed + {KeyAt(s.workers[w])})
    case Adopt(w) => To(s, w, Won(KeyAt(s.workers[w])))
    case Reject(w) => To(s, w, Releasing(s.workers[w].phase.c)).(bad := s.bad + {KeyAt(s.workers[w])})
    case Throttled(w) => To(s, w, Releasing(s.workers[w].phase.c))
    case Silent(w) => To(s, w, Releasing(Counted(s.workers[w].phase.c)))
    case Release(w) => To(s, w, Stopping(s.workers[w].phase.c)).(claimed := s.claimed - {KeyAt(s.workers[w])})
    case StopChild(w) => To(s, w, Scanning(Next(s.workers[w].phase.c)))
    case Retry(w) => To(s, w, Scanning(Cursor(2, 0, s.workers[w].phase.c.exclude, 0)))
    case GiveUp(w) => To(s, w, GaveUp)
    case Record(w) => To(s, w, Owned(s.workers[w].phase.key)).(used := s.used[s.workers[w].phase.key := w])
    case RecordDuplicate(w) => To(s, w, Idle)
    case NewRound(orders) =>
      State(s.used, {}, {},
            seq(|s.workers|, w requires 0 <= w < |s.workers| == |orders| => Fresh(s.workers[w], orders[w])))
  }

  // ---- the inductive invariant ----

  /** A worker holds at most one key: the one it probes, or the one it took this round. */
  predicate Holds(wk: Worker, key: string) {
    match wk.phase
    case Probing(c, _) => c.i < |wk.order| && wk.order[c.i] == key
    case Releasing(c) => c.i < |wk.order| && wk.order[c.i] == key
    case Won(k) => k == key
    case Owned(k) => k == key
    case _ => false
  }

  predicate Holding(wk: Worker) {
    wk.phase.Probing? || wk.phase.Releasing? || wk.phase.Won? || wk.phase.Owned?
  }

  predicate HasCursor(wk: Worker) {
    wk.phase.Scanning? || wk.phase.Checked? || wk.phase.Probing? || wk.phase.Releasing? || wk.phase.Stopping?
  }

  predicate Adopted(wk: Worker, key: string) {
    wk.phase == Owned(key) || wk.phase == Settled(key)
  }

  ghost predicate CursorsInRange(s: State) {
    forall w | 0 <= w < |s.workers| ::
      s.workers[w].phase.Checked? || s.workers[w].phase.Probing? || s.workers[w].phase.Releasing?
      ==> s.workers[w].phase.c.i < |s.workers[w].order|
  }

  /** The claimed set is the disjoint union of what the workers hold. */
  ghost predicate ClaimsExact(s: State) {
    && (forall v, w, key | 0 <= v < |s.workers| && 0 <= w < |s.workers| && Holds(s.workers[v], key)
                             && Holds(s.workers[w], key)
          :: v == w)
    && (forall w, key | 0 <= w < |s.workers| && Holds(s.workers[w], key) :: key in s.claimed)
    && (forall key | key in s.claimed :: exists w :: 0 <= w < |s.workers| && Holds(s.workers[w], key))
  }

  /** `used` records every adopted key under its one owner. */
  ghost predicate UsedExact(s: State) {
    && (forall key | key in s.used :: s.used[key] < |s.workers| && Adopted(s.workers[s.used[key]], key))
    && (forall w, key | 0 <= w < |s.workers| && Adopted(s.workers[w], key) :: key in s.used && s.used[key] == w)
  }

  /** Keys adopted in earlier rounds are outside everything this round can reach. */
  ghost predicate SettledApart(s: State) {
    && (forall v, w, key | 0 <= v < |s.workers| && 0 <= w < |s.workers| && s.workers[v].phase == Settled(key)
          && HasCursor(s.workers[w]) :: key in s.workers[w].phase.c.exclude)
    && (forall v, w, key | 0 <= v < |s.workers| && 0 <= w < |s.workers| && s.workers[v].phase == Settled(key)
          :: !Holds(s.workers[w], key))
    && (forall w | 0 <= w < |s.workers|
          && (s.workers[w].phase.Checked? || s.workers[w].phase.Probing? || s.workers[w].phase.Releasing?)
          && s.workers[w].phase.c.i < |s.workers[w].order|
          :: s.workers[w].order[s.workers[w].phase.c.i] !in s.workers[w].phase.c.exclude)
  }

  /** A pass-1 probe was clean when it was looked at; bad marks only accumulate. */
  ghost predicate LookedBeforeClaim(s: State) {
    forall w | 0 <= w < |s.workers| && (s.workers[w].phase.Checked? || s.workers[w].phase.Probing?)
               && s.workers[w].phase.c.i < |s.workers[w].order| ::
      && s.workers[w].phase.seen <= s.bad
      && (s.workers[w].phase.c.pass == 1 ==> s.workers[w].order[s.workers[w].phase.c.i] !in s.workers[w].phase.seen)
  }

  ghost predicate Inv(s: State) {
    CursorsInRange(s) && ClaimsExact(s) && UsedExact(s) && SettledApart(s) && LookedBeforeClaim(s)
  }

  lemma InitInv(instances: nat)
    ensures Inv(Init(instances))
  {
  }

  function Actor(step: Step): int {
    match step
    case NewRound(_) => -1
    case Begin(w) => w
    case SkipExcluded(w) => w
    case SkipBad(w) => w
    case Check(w) => w
    case LoseClaim(w) => w
    case Claim(w) => w
    case Adopt(w) => w
    case Reject(w) => w
    case Throttled(w) => w
    case Silent(w) => w
    case Release(w) => w
    case StopChild(w) => w
    case Retry(w) => w
    case GiveUp(w) => w
    case Record(w) => w
    case RecordDuplicate(w) => w
  }

  lemma OnlyActorMoves(s: State, step: Step)
    requires Enabled(s, step) && !step.NewRound?
    ensures 0 <= Actor(step) < |s.workers| == |Apply(s, step).workers|
    ensures forall w | 0 <= w < |s.workers| && w != Actor(step) :: Apply(s, step).workers[w] == s.workers[w]
    ensures Apply(s, step).workers[Actor(step)].order == s.workers[Actor(step)].order
  {
  }

  /** What each step does to its actor's grip on keys. */
  lemma ActorGrip(s: State, step: Step)
    requires Enabled(s, step) && !step.NewRound? && CursorsInRange(s)
    ensures var me := Actor(step);
            var t := Apply(s, step);
            && (step.Claim? ==> !Holding(s.workers[me]) && Holds(t.workers[me], KeyAt(s.workers[me]))
                                && t.claimed == s.claimed + {KeyAt(s.workers[me])}
                                && KeyAt(s.workers[me]) !in s.claimed)
            && (step.Release? ==> Holds(s.workers[me], KeyAt(s.workers[me])) && !Holding(t.workers[me])
                                  && t.claimed == s.claimed - {KeyAt(s.workers[me])})
            && (!step.Claim? && !step.Release? && !step.RecordDuplicate? ==>
                  && t.claimed == s.claimed
                  && forall key :: Holds(t.workers[me], key) <==> Holds(s.workers[me], key))
  {
  }

  lemma StepClaims(s: State, step: Step)
    requires Inv(s) && Enabled(s, step) && !step.NewRound? && !step.RecordDuplicate?
    ensures ClaimsExact(Apply(s, step))
  {
    var t := Apply(s, step);
    var me := Actor(step);
    OnlyActorMoves(s, step);
    ActorGrip(s, step);
    forall key | key in t.claimed
      ensures exists w :: 0 <= w < |t.workers| && Holds(t.workers[w], key)
    {
      if key in s.claimed {
        var w :| 0 <= w < |s.workers| && Holds(s.workers[w], key);
        assert Holds(t.workers[w], key);
      } else {
        assert Holds(t.workers[me], key);
      }
    }
  }

  /** The "taken by another instance" branch is unreachable: a key just won is in nobody's record. */
  lemma WonKeyIsUnused(s: State, w: nat)
    requires Inv(s) && w < |s.workers| && s.workers[w].phase.Won?
    ensures s.workers[w].phase.key !in s.used
  {
    var key := s.workers[w].phase.key;
    if key in s.used {
      assert Holds(s.workers[w], key);
      assert Adopted(s.workers[s.used[key]], key);
      if s.workers[s.used[key]].phase == Owned(key) {
        assert Holds(s.workers[s.used[key]], key);
      }
    }
  }

  lemma UsedFrame(s: State, t: State, me: nat)
    requires UsedExact(s) && t.used == s.used && me < |s.workers| == |t.workers|
    requires forall w | 0 <= w < |s.workers| && w != me :: t.workers[w] == s.workers[w]
    requires forall key :: Adopted(t.workers[me], key) <==> Adopted(s.workers[me], key)
    ensures UsedExact(t)
  {
  }

  lemma RecordUsed(s: State, t: State, me: nat, key: string)
    requires UsedExact(s) && key !in s.used && t.used == s.used[key := me] && me < |s.workers|
    requires s.workers[me].phase == Won(key) && t.workers == s.workers[me := s.workers[me].(phase := Owned(key))]
    ensures UsedExact(t)
  {
    assert forall k :: Adopted(t.workers[me], k) <==> k == key;
    assert forall k :: !Adopted(s.workers[me], k);
  }

  lemma StepUsed(s: State, step: Step)
    requires Inv(s) && Enabled(s, step) && !step.NewRound?
    ensures UsedExact(Apply(s, step))
  {
    var me := Actor(step);
    OnlyActorMoves(s, step);
    if step.Record? {
      WonKeyIsUnused(s, me);
      RecordUsed(s, Apply(s, step), me, s.workers[me].phase.key);
    } else {
      UsedFrame(s, Apply(s, step), me);
    }
  }

  lemma SettledFrame(s: State, t: State, me: nat)
    requires UsedExact(s) && SettledApart(s) && me < |s.workers| == |t.workers|
    requires forall w | 0 <= w < |s.workers| && w != me :: t.workers[w] == s.workers[w]
    requires !s.workers[me].phase.Settled? && !t.workers[me].phase.Settled?
    requires HasCursor(t.workers[me]) ==>
               t.workers[me].phase.c.exclude == s.used.Keys
               || (HasCursor(s.workers[me]) && t.workers[me].phase.c.exclude == s.workers[me].phase.c.exclude)
    requires forall key | Holds(t.workers[me], key) ::
               Holds(s.workers[me], key) || (HasCursor(s.workers[me]) && key !in s.workers[me].phase.c.exclude)
    requires t.workers[me].phase.Checked? || t.workers[me].phase.Probing? || t.workers[me].phase.Releasing? ==>
               t.workers[me].phase.c.i < |t.workers[me].order|
               && t.workers[me].order[t.workers[me].phase.c.i] !in t.workers[me].phase.c.exclude
    ensures SettledApart(t)
  {
    forall w, key | 0 <= w < |t.workers| && t.workers[w].phase == Settled(key)
      ensures w != me && s.workers[w].phase == Settled(key) && key in s.used
    {
      assert Adopted(s.workers[w], key);
    }
  }

  /** What each step does to its actor's cursor. */
  lemma ActorCursor(s: State, step: Step)
    requires Enabled(s, step) && !step.NewRound? && CursorsInRange(s) && SettledApart(s)
    ensures var me := Actor(step);
            var from, to := s.workers[me], Apply(s, step).workers[me];
            && !from.phase.Settled? && !to.phase.Settled?
            && (HasCursor(to) ==> (step.Begin? && to.phase.c.exclude == s.used.Keys)
                                  || (HasCursor(from) && to.phase.c.exclude == from.phase.c.exclude))
            && (forall key | Holds(to, key) :: Holds(from, key) || (HasCursor(from) && key !in from.phase.c.exclude))
            && (to.phase.Checked? || to.phase.Probing? || to.phase.Releasing? ==>
                  to.phase.c.i < |to.order| && to.order[to.phase.c.i] !in to.phase.c.exclude)
  {
  }

  lemma StepLooked(s: State, step: Step)
    requires CursorsInRange(s) && LookedBeforeClaim(s) && Enabled(s, step) && !step.NewRound?
    ensures LookedBeforeClaim(Apply(s, step)) && CursorsInRange(Apply(s, step))
  {
    var t := Apply(s, step);
    OnlyActorMoves(s, step);
    assert s.bad <= t.bad;
    forall w | 0 <= w < |s.workers| && w != Actor(step)
      ensures t.workers[w] == s.workers[w]
    {
    }
  }

  lemma StepSettled(s: State, step: Step)
    requires Inv(s) && Enabled(s, step) && !step.NewRound?
    ensures SettledApart(Apply(s, step))
  {
    OnlyActorMoves(s, step);
    ActorCursor(s, step);
    SettledFrame(s, Apply(s, step), Actor(step));
  }

  lemma RoundFrame(s: State, t: State)
    requires UsedExact(s) && t.used == s.used && t.claimed == {} && |t.workers| == |s.workers|
    requires forall w, key | 0 <= w < |s.workers| :: Adopted(t.workers[w], key) <==> Adopted(s.workers[w], key)
    requires forall w | 0 <= w < |s.workers| :: !Holding(t.workers[w]) && !HasCursor(t.workers[w])
    ensures Inv(t)
  {
    assert forall w, key | 0 <= w < |t.workers| :: !Holds(t.workers[w], key);
  }

  lemma NewRoundInv(s: State, orders: seq<seq<string>>)
    requires Inv(s) && Enabled(s, NewRound(orders))
    ensures Inv(Apply(s, NewRound(orders)))
  {
    var t := Apply(s, NewRound(orders));
    forall w | 0 <= w < |s.workers|
      ensures !Holding(t.workers[w]) && !HasCursor(t.workers[w])
      ensures forall key :: Adopted(t.workers[w], key) <==> Adopted(s.workers[w], key)
    {
      assert OverFor(s.workers[w].phase);
    }
    RoundFrame(s, t);
  }

  lemma StepInv(s: State, step: Step)
    requires Inv(s) && Enabled(s, step)
    ensures Inv(Apply(s, step)) && !step.RecordDuplicate?
  {
    if step.NewRound? {
      NewRoundInv(s, step.orders);
    } else {
      if step.RecordDuplicate? {
        WonKeyIsUnused(s, step.w);
      }
      StepClaims(s, step);
      StepUsed(s, step);
      StepSettled(s, step);
      StepLooked(s, step);
    }
  }

  // ---- whole runs ----

  predicate Runnable(s: State, run: seq<Step>)
    decreases |run|, 0
  {
    run == [] || (Runnable(s, run[..|run| - 1]) && Enabled(After(s, run[..|run| - 1]), run[|run| - 1]))
  }

  function After(s: State, run: seq<Step>): State
    requires Runnable(s, run)
    decreases |run|, 1
  {
    if run == [] then s else Apply(After(s, run[..|run| - 1]), run[|run| - 1])
  }

  lemma {:induction false} RunInv(s: State, run: seq<Step>)
    requires Inv(s) && Runnable(s, run)
    ensures Inv(After(s, run)) && |After(s, run).workers| == |s.workers|
    ensures forall k | 0 <= k < |run| :: !run[k].RecordDuplicate?
    decreases |run|
  {
    if run != [] {
      var init := run[..|run| - 1];
      RunInv(s, init);
      StepInv(After(s, init), run[|run| - 1]);
      assert forall k | 0 <= k < |init| :: run[k] == init[k];
    }
  }

  lemma AdoptedIsPrivate(s: State, v: nat, w: nat, key: string)
    requires Inv(s) && v < |s.workers| && w < |s.workers| && v != w && Adopted(s.workers[v], key)
    ensures !Adopted(s.workers[w], key) && !Holds(s.workers[w], key)
  {
    assert s.used[key] == v;
    if s.workers[v].phase == Owned(key) {
      assert Holds(s.workers[v], key);
    }
  }

  /** In every reachable state of every interleaving, over all rounds: the claimed
      set is exactly what the workers hold, no key is held by two of them, and
      nobody ever finds its key already taken. */
  lemma ClaimsAreExclusive(instances: nat, run: seq<Step>)
    requires Runnable(Init(instances), run)
    ensures var s := After(Init(instances), run);
            && (forall key :: key in s.claimed <==> exists w :: 0 <= w < |s.workers| && Holds(s.workers[w], key))
            && (forall v, w, key | 0 <= v < w < |s.workers| && Holds(s.workers[v], key) :: !Holds(s.workers[w], key))
    ensures forall k | 0 <= k < |run| :: !run[k].RecordDuplicate?
  {
    InitInv(instances);
    RunInv(Init(instances), run);
  }

  /** ... and a key adopted in any round is nobody else's, neither adopted nor probed, ever after. */
  lemma AdoptionsAreDistinct(instances: nat, run: seq<Step>)
    requires Runnable(Init(instances), run)
    ensures var s := After(Init(instances), run);
            && (forall v, w, key | 0 <= v < |s.workers| && 0 <= w < |s.workers| && v != w && Adopted(s.workers[v], key)
                  :: !Adopted(s.workers[w], key) && !Holds(s.workers[w], key))
            && (forall key | key in s.used :: s.used[key] < |s.workers| && Adopted(s.workers[s.used[key]], key))
  {
    InitInv(instances);
    RunInv(Init(instances), run);
    var s := After(Init(instances), run);
    forall v, w, key | 0 <= v < |s.workers| && 0 <= w < |s.workers| && v != w && Adopted(s.workers[v], key)
      ensures !Adopted(s.workers[w], key) && !Holds(s.workers[w], key)
    {
      AdoptedIsPrivate(s, v, w, key);
    }
  }

  /** The bad check and the claim are two locks: a first-pass probe can run on a
      key that is marked bad, and then the mark landed after this worker looked. */
  lemma BadProbeMeansLateMark(instances: nat, run: seq<Step>, w: nat)
    requires Runnable(Init(instances), run) && w < instances
    requires var wk := After(Init(instances), run).workers;
             w < |wk| && wk[w].phase.Probing? && wk[w].phase.c.pass == 1
    ensures var s := After(Init(instances), run);
            var wk := s.workers[w];
            && wk.phase.c.i < |wk.order|
            && wk.phase.seen <= s.bad && KeyAt(wk) !in wk.phase.seen
  {
    InitInv(instances);
    RunInv(Init(instances), run);
  }

  lemma Extend(s: State, run: seq<Step>, step: Step)
    requires Runnable(s, run) && Enabled(After(s, run), step)
    ensures Runnable(s, run + [step]) && After(s, run + [step]) == Apply(After(s, run), step)
  {
    assert (run + [step])[..|run|] == run;
  }

  /** So a config that "already failed elsewhere" is not always skipped: two workers
      look, one rejects and lets go, the other probes the same key after all,
      possibly while the first one's child on that key is still being stopped. */
  lemma RejectedKeyIsProbedAgain(key: string) returns (run: seq<Step>)
    ensures Runnable(Init(2), run)
    ensures var s := After(Init(2), run);
            && |s.workers| == 2
            && s.workers[1].phase.Probing? && s.workers[1].phase.c.pass == 1
            && s.workers[1].phase.c.i < |s.workers[1].order|
            && KeyAt(s.workers[1]) == key && key in s.bad
            && s.workers[0].phase.Stopping? && s.workers[0].phase.c.i < |s.workers[0].order|
            && s.workers[0].order[s.workers[0].phase.c.i] == key
  {
    var s0 := Init(2);
    run := [];
    for k := 0 to 9
      invariant Runnable(s0, run) && After(s0, run) == Scripted(key, k)
    {
      ScriptStep(key, k);
      Extend(s0, run, Script(key, k));
      run := run + [Script(key, k)];
    }
    assert Scripted(key, 9).workers[1].order == [key];
  }

  function Script(key: string, k: nat): Step {
    match k
    case 0 => NewRound([[key], [key]])
    case 1 => Begin(0)
    case 2 => Begin(1)
    case 3 => Check(0)
    case 4 => Check(1)
    case 5 => Claim(0)
    case 6 => Reject(0)
    case 7 => Release(0)
    case _ => Claim(1)
  }

  /** The nine states of that run. */
  function Scripted(key: string, k: nat): State
    requires k <= 9
  {
    var head := Cursor(1, 0, {}, 0);
    var first :=
      if k == 0 then GaveUp else if k == 1 then Idle else if k <= 3 then Scanning(head)
      else if k <= 5 then Checked(head, {}) else if k == 6 then Probing(head, {})
      else if k == 7 then Releasing(head) else Stopping(head);
    var second :=
      if k == 0 then GaveUp else if k <= 2 then Idle else if k <= 4 then Scanning(head)
      else if k <= 8 then Checked(head, {}) else Probing(head, {});
    var order := if k == 0 then [] else [key];
    State(map[], if k <= 6 then {} else {key}, if 6 <= k <= 7 || k == 9 then {key} else {},
          [Worker(order, first), Worker(order, second)])
  }

  lemma ScriptStep(key: string, k: nat)
    requires k < 9
    ensures Enabled(Scripted(key, k), Script(key, k))
    ensures Apply(Scripted(key, k), Script(key, k)) == Scripted(key, k + 1)
  {
    var s, t := Scripted(key, k), Scripted(key, k + 1);
    if k == 0 {
      assert Apply(s, Script(key, k)).workers == t.workers;
    } else {
      var me := Actor(Script(key, k));
      assert t.workers == s.workers[me := t.workers[me]];
      var none: set<string> := {};
      assert {key} - {key} == none && none + {key} == {key} && s.used.Keys == none;
    }
  }
}
