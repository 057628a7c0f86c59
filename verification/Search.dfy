// searchCandidates (v2proxy/selector.go): a feeder, a few workers and throwaway
// children, under every schedule. A position is an index into the candidate list.

module Search {
  import opened Pool

  datatype Phase =
    | Waiting                                              // blocked on the jobs channel
    | Received(p: nat)                                     // took a job, has not looked at the context
    | WantsPort(p: nat)                                    // waits for tempMu
    | Allocating(p: nat)                                   // holds tempMu, nothing started
    | Launched(p: nat, pid: nat)                           // holds tempMu, child runs, not registered
    | Tracked(p: nat, pid: nat)                            // holds tempMu, child registered
    | Probing(p: nat, pid: nat, open: bool)                // tempMu released
    | Stopping(p: nat, pid: nat, works: bool, lat: nat)    // verdict in hand, child still runs
    | Stopped(p: nat, pid: nat, works: bool, lat: nat)     // child reaped, still registered
    | Graded(p: nat, works: bool, lat: nat)                // child gone and unregistered
    | Left                                                 // goroutine ended

  datatype Win = Win(p: nat, lat: nat)

  datatype State = State(
    n: nat,                       // how many candidates
    next: nat,                    // how many the feeder has handed over
    closed: bool,                 // the feeder has closed the channel and ended
    expired: bool,                // the switch budget ran out
    cancelled: bool,              // the caller returned and cancelled the context
    returned: bool,               // wg.Wait is over
    workers: seq<Phase>,
    lock: Option<nat>,            // tempMu
    children: set<nat>,           // throwaway children started and not yet reaped
    tracked: set<nat>,            // tempPIDs
    spawned: set<nat>,            // every pid ever handed out
    win: Option<Win>,
    worked: set<nat>,             // history: positions whose probe worked ...
    failed: set<nat>,             // ... failed ...
    dropped: set<nat>)            // ... or was skipped because the context was done

  datatype Step =
    | Expire
    | Send(w: nat)
    | FeederQuits
    | LookAtContext(w: nat)
    | TakeLock(w: nat)
    | LaunchFails(w: nat)
    | Launch(w: nat, pid: nat)
    | Track(w: nat)
    | WaitForPort(w: nat, open: bool)
    | Probe(w: nat, works: bool, lat: nat)
    | StopChild(w: nat)
    | Untrack(w: nat)
    | Report(w: nat)
    | Leave(w: nat)
    | Return
    | Cancel

  function Start(n: nat, workers: nat): State {
    State(n, 0, false, false, false, false,
          seq(if workers < n then workers else n, _ => Waiting),
          None, {}, {}, {}, None, {}, {}, {})
  }

  predicate ContextDone(s: State) {
    s.expired || s.cancelled
  }

  predicate Enabled(s: State, step: Step) {
    match step
    case Expire => !s.expired
    case Send(w) => w < |s.workers| && s.workers[w].Waiting? && !s.closed && s.next < s.n
    case FeederQuits => !s.closed && (s.next == s.n || ContextDone(s))
    case LookAtContext(w) => w < |s.workers| && s.workers[w].Received?
    case TakeLock(w) => w < |s.workers| && s.workers[w].WantsPort? && s.lock.None?
    case LaunchFails(w) => w < |s.workers| && s.workers[w].Allocating?
    case Launch(w, pid) => w < |s.workers| && s.workers[w].Allocating? && pid !in s.spawned
    case Track(w) => w < |s.workers| && s.workers[w].Launched?
    case WaitForPort(w, open) => w < |s.workers| && s.workers[w].Tracked?
    case Probe(w, works, lat) => w < |s.workers| && s.workers[w].Probing? && (works ==> s.workers[w].open)
    case StopChild(w) => w < |s.workers| && s.workers[w].Stopping?
    case Untrack(w) => w < |s.workers| && s.workers[w].Stopped?
    case Report(w) => w < |s.workers| && s.workers[w].Graded?
    case Leave(w) => w < |s.workers| && s.workers[w].Waiting? && s.closed
    case Return => !s.returned && forall w | 0 <= w < |s.workers| :: s.workers[w].Left?
    case Cancel => s.returned && !s.cancelled
  }

  function Apply(s: State, step: Step): State
    requires Enabled(s, step)
  {
    match step
    case Expire => s.(expired := true)
    case Send(w) => s.(workers := s.workers[w := Received(s.next)], next := s.next + 1)
    case FeederQuits => s.(closed := true)
    case LookAtContext(w) =>
      if ContextDone(s)
      then s.(workers := s.workers[w := Left], dropped := s.dropped + {s.workers[w].p})
      else s.(workers := s.workers[w := WantsPort(s.workers[w].p)])
    case TakeLock(w) => s.(workers := s.workers[w := Allocating(s.workers[w].p)], lock := Some(w))
    case LaunchFails(w) => s.(workers := s.workers[w := Graded(s.workers[w].p, false, 0)], lock := None)
    case Launch(w, pid) => s.(workers := s.workers[w := Launched(s.workers[w].p, pid)],
                              children := s.children + {pid}, spawned := s.spawned + {pid})
    case Track(w) => s.(workers := s.workers[w := Tracked(s.workers[w].p, s.workers[w].pid)],
                        tracked := s.tracked + {s.workers[w].pid})
    case WaitForPort(w, open) => s.(workers := s.workers[w := Probing(s.workers[w].p, s.workers[w].pid, open)],
                                    lock := None)
    case Probe(w, works, lat) => s.(workers := s.workers[w := Stopping(s.workers[w].p, s.workers[w].pid, works, lat)])
    case StopChild(w) =>
      var Stopping(p, pid, works, lat) := s.workers[w];
      s.(workers := s.workers[w := Stopped(p, pid, works, lat)], children := s.children - {pid})
    case Untrack(w) =>
      var Stopped(p, pid, works, lat) := s.workers[w];
      s.(workers := s.workers[w := Graded(p, works, lat)], tracked := s.tracked - {pid})
    case Report(w) =>
      var Graded(p, works, lat) := s.workers[w];
      if works
      then s.(workers := s.workers[w := Left], worked := s.worked + {p},
              win := if s.win.None? then Some(Win(p, lat)) else s.win)
      else s.(workers := s.workers[w := Waiting], failed := s.failed + {p})
    case Leave(w) => s.(workers := s.workers[w := Left])
    case Return => s.(returned := true)
    case Cancel => s.(cancelled := true)
  }

  // ---- the inductive invariant ----

  predicate Holds(ph: Phase) {
    !ph.Waiting? && !ph.Left?
  }

  predicate HasChild(ph: Phase) {
    ph.Launched? || ph.Tracked? || ph.Probing? || ph.Stopping?
  }

  predicate IsTracked(ph: Phase) {
    ph.Tracked? || ph.Probing? || ph.Stopping? || ph.Stopped?
  }

  predicate InsideLock(ph: Phase) {
    ph.Allocating? || ph.Launched? || ph.Tracked?
  }

  predicate Settled(s: State, p: nat) {
    p in s.worked || p in s.failed || p in s.dropped
  }

  /** Every handed-over position is with exactly one worker or settled, exactly one of the two. */
  ghost predicate Accounted(s: State) {
    && s.next <= s.n
    && (forall w | 0 <= w < |s.workers| && Holds(s.workers[w]) ::
          s.workers[w].p < s.next && !Settled(s, s.workers[w].p))
    && (forall v, w | 0 <= v < w < |s.workers| && Holds(s.workers[v]) && Holds(s.workers[w]) ::
          s.workers[v].p != s.workers[w].p)
    && (forall p: nat | Settled(s, p) :: p < s.next)
    && (forall p: nat | p < s.next && !Settled(s, p) ::
          exists w :: 0 <= w < |s.workers| && Holds(s.workers[w]) && s.workers[w].p == p)
  }

  predicate Verdicts(s: State) {
    && s.worked !! s.failed && s.worked !! s.dropped && s.failed !! s.dropped
    && (s.win.Some? ==> s.win.value.p in s.worked)
    && (s.worked != {} ==> s.win.Some?)
    && (s.dropped != {} ==> s.expired)
  }

  /** Why the feeder, the workers and the caller may be gone. */
  predicate Endings(s: State) {
    && (s.closed ==> s.next == s.n || ContextDone(s))
    && (s.cancelled ==> s.returned)
    && (s.returned ==> forall w | 0 <= w < |s.workers| :: s.workers[w].Left?)
    && (forall w | 0 <= w < |s.workers| && s.workers[w].Left? ::
          s.win.Some? || s.expired || (s.closed && s.next == s.n))
  }

  ghost predicate ChildrenOwned(s: State) {
    && (forall w | 0 <= w < |s.workers| ::
          && (HasChild(s.workers[w]) ==> s.workers[w].pid in s.children)
          && (IsTracked(s.workers[w]) ==> s.workers[w].pid in s.tracked))
    && (forall pid | pid in s.children ::
          exists w :: 0 <= w < |s.workers| && HasChild(s.workers[w]) && s.workers[w].pid == pid)
    && (forall pid | pid in s.tracked ::
          exists w :: 0 <= w < |s.workers| && IsTracked(s.workers[w]) && s.workers[w].pid == pid)
    && (forall v, w | 0 <= v < w < |s.workers| && HasPid(s.workers[v]) && HasPid(s.workers[w]) ::
          s.workers[v].pid != s.workers[w].pid)
    && (forall w | 0 <= w < |s.workers| && HasPid(s.workers[w]) :: s.workers[w].pid in s.spawned)
  }

  predicate HasPid(ph: Phase) {
    HasChild(ph) || ph.Stopped?
  }

  ghost predicate LockOwned(s: State) {
    && (forall w | 0 <= w < |s.workers| :: InsideLock(s.workers[w]) <==> s.lock == Some(w))
    && (s.lock.Some? ==> s.lock.value < |s.workers|)
  }

  ghost predicate Inv(s: State) {
    Accounted(s) && Verdicts(s) && Endings(s) && ChildrenOwned(s) && LockOwned(s) && (s.n > 0 ==> |s.workers| > 0)
  }

  lemma StartInv(n: nat, workers: nat)
    requires workers > 0
    ensures Inv(Start(n, workers))
  {
  }

  /** The only worker a step touches. */
  function Actor(step: Step): int {
    match step
    case Expire => -1
    case FeederQuits => -1
    case Return => -1
    case Cancel => -1
    case Send(w) => w
    case LookAtContext(w) => w
    case TakeLock(w) => w
    case LaunchFails(w) => w
    case Launch(w, pid) => w
    case Track(w) => w
    case WaitForPort(w, open) => w
    case Probe(w, works, lat) => w
    case StopChild(w) => w
    case Untrack(w) => w
    case Report(w) => w
    case Leave(w) => w
  }

  /** The phase a step leaves its actor in; nobody else's phase changes. */
  lemma OnlyActorMoves(s: State, step: Step) returns (me: int)
    requires Enabled(s, step)
    ensures me == Actor(step)
    ensures var t := Apply(s, step);
            && |t.workers| == |s.workers|
            && (me >= 0 ==> me < |s.workers| && t.workers == s.workers[me := t.workers[me]])
            && (me < 0 ==> t.workers == s.workers)
  {
    me := Actor(step);
  }

  /** A step that settles nothing and hands nothing over. */
  lemma SameBooks(s: State, t: State, me: int)
    requires Accounted(s)
    requires t.n == s.n && t.next == s.next && t.worked == s.worked && t.failed == s.failed && t.dropped == s.dropped
    requires 0 <= me < |s.workers| == |t.workers| && t.workers == s.workers[me := t.workers[me]]
    requires Holds(t.workers[me]) == Holds(s.workers[me])
    requires Holds(t.workers[me]) ==> t.workers[me].p == s.workers[me].p
    ensures Accounted(t)
  {
    forall p: nat | p < t.next && !Settled(t, p)
      ensures exists w :: 0 <= w < |t.workers| && Holds(t.workers[w]) && t.workers[w].p == p
    {
      assert !Settled(s, p);
      var w :| 0 <= w < |s.workers| && Holds(s.workers[w]) && s.workers[w].p == p;
      assert Holds(t.workers[w]) && t.workers[w].p == p;
    }
    forall p: nat | Settled(t, p)
      ensures p < t.next
    {
      assert Settled(s, p);
    }
  }

  /** The feeder hands the next position to a waiting worker. */
  lemma HandOver(s: State, t: State, me: int)
    requires Accounted(s) && s.next < s.n
    requires t.n == s.n && t.next == s.next + 1 && t.worked == s.worked && t.failed == s.failed
    requires t.dropped == s.dropped
    requires 0 <= me < |s.workers| && s.workers[me].Waiting? && t.workers == s.workers[me := Received(s.next)]
    ensures Accounted(t)
  {
    assert !Settled(s, s.next);
    forall p: nat | p < t.next && !Settled(t, p)
      ensures exists w :: 0 <= w < |t.workers| && Holds(t.workers[w]) && t.workers[w].p == p
    {
      if p == s.next {
        assert Holds(t.workers[me]);
      } else {
        assert !Settled(s, p);
        var w :| 0 <= w < |s.workers| && Holds(s.workers[w]) && s.workers[w].p == p;
        assert Holds(t.workers[w]) && t.workers[w].p == p;
      }
    }
    forall p: nat | Settled(t, p)
      ensures p < t.next
    {
      assert Settled(s, p);
    }
  }

  /** A worker puts its position down for good. */
  lemma PutDown(s: State, t: State, me: int)
    requires Accounted(s)
    requires t.n == s.n && t.next == s.next
    requires 0 <= me < |s.workers| == |t.workers| && t.workers == s.workers[me := t.workers[me]]
    requires Holds(s.workers[me]) && !Holds(t.workers[me])
    requires forall p: nat :: Settled(t, p) <==> Settled(s, p) || p == s.workers[me].p
    ensures Accounted(t)
  {
    forall p: nat | p < t.next && !Settled(t, p)
      ensures exists w :: 0 <= w < |t.workers| && Holds(t.workers[w]) && t.workers[w].p == p
    {
      var w :| 0 <= w < |s.workers| && Holds(s.workers[w]) && s.workers[w].p == p;
      assert w != me && Holds(t.workers[w]) && t.workers[w].p == p;
    }
  }

  /** What a step does to the books: its actor takes the next position, keeps its own,
      or puts it down, ... */
  lemma HandEffect(s: State, step: Step, me: nat)
    requires Enabled(s, step) && Actor(step) == me
    ensures var t := Apply(s, step);
            && |t.workers| == |s.workers| && t.workers == s.workers[me := t.workers[me]] && t.n == s.n
            && (step.Send? ==>
                s.workers[me].Waiting? && s.next < s.n && t.workers[me] == Received(s.next) && t.next == s.next + 1)
            && (!step.Send? ==> t.next == s.next)
            && (!step.Send? && Holds(t.workers[me]) ==> Holds(s.workers[me]) && t.workers[me].p == s.workers[me].p)
  {
    var _ := OnlyActorMoves(s, step);
  }

  /** ... and if it puts one down, settles just that. */
  lemma BookEffect(s: State, step: Step, me: nat)
    requires Enabled(s, step) && Actor(step) == me
    ensures var t := Apply(s, step);
            && me < |t.workers|
            && if Holds(s.workers[me]) && !Holds(t.workers[me]) then OnePutDown(s, t, s.workers[me].p)
               else t.worked == s.worked && t.failed == s.failed && t.dropped == s.dropped
  {
    if step.Report? || step.LookAtContext? {
      assert Holds(s.workers[me]);
    } else {
      var t := Apply(s, step);
      assert t.worked == s.worked && t.failed == s.failed && t.dropped == s.dropped;
      assert Holds(s.workers[me]) ==> Holds(t.workers[me]);
    }
  }

  predicate OnePutDown(s: State, t: State, p: nat) {
    || (t.worked == s.worked + {p} && t.failed == s.failed && t.dropped == s.dropped)
    || (t.worked == s.worked && t.failed == s.failed + {p} && t.dropped == s.dropped)
    || (t.worked == s.worked && t.failed == s.failed && t.dropped == s.dropped + {p})
  }

  lemma StepAccounted(s: State, step: Step)
    requires Accounted(s) && Enabled(s, step)
    ensures Accounted(Apply(s, step))
  {
    var t := Apply(s, step);
    var me := Actor(step);
    if me >= 0 {
      HandEffect(s, step, me);
      BookEffect(s, step, me);
      if step.Send? {
        HandOver(s, t, me);
      } else if Holds(s.workers[me]) && !Holds(t.workers[me]) {
        PutDown(s, t, me);
      } else {
        SameBooks(s, t, me);
      }
    } else {
      assert forall p: nat :: Settled(t, p) <==> Settled(s, p);
    }
  }

  lemma StepVerdicts(s: State, step: Step)
    requires Accounted(s) && Verdicts(s) && Endings(s) && Enabled(s, step)
    ensures Verdicts(Apply(s, step))
  {
    if step.LookAtContext? || step.Report? {
      assert Holds(s.workers[step.w]) && !Settled(s, s.workers[step.w].p);
    } else {
      var t := Apply(s, step);
      assert t.worked == s.worked && t.failed == s.failed && t.dropped == s.dropped && t.win == s.win;
    }
  }

  lemma StepEndings(s: State, step: Step)
    requires Accounted(s) && Endings(s) && Enabled(s, step)
    ensures Endings(Apply(s, step))
  {
    var t := Apply(s, step);
    var me := OnlyActorMoves(s, step);
    if me >= 0 {
      EndingsFrame(s, t, me);
    }
  }

  /** One worker moves and nobody else's reason to leave goes away. */
  lemma EndingsFrame(s: State, t: State, me: nat)
    requires Endings(s)
    requires me < |s.workers| == |t.workers| && t.workers == s.workers[me := t.workers[me]]
    requires t.closed == s.closed && t.expired == s.expired && t.cancelled == s.cancelled && t.returned == s.returned
             && t.n == s.n
    requires t.next == s.next || !s.closed
    requires s.win.Some? ==> t.win.Some?
    requires !s.workers[me].Left?
    requires t.workers[me].Left? ==> t.win.Some? || t.expired || (t.closed && t.next == t.n)
    ensures Endings(t)
  {
  }

  /** One worker moves: a child it starts under a fresh pid is counted, and one it is
      done with is not any more. */
  lemma ChildrenFrame(s: State, t: State, me: nat)
    requires ChildrenOwned(s)
    requires me < |s.workers| == |t.workers| && t.workers == s.workers[me := t.workers[me]]
    requires HasPid(t.workers[me]) ==>
               || (HasPid(s.workers[me]) && t.workers[me].pid == s.workers[me].pid && t.spawned == s.spawned)
               || (!HasPid(s.workers[me]) && t.workers[me].pid !in s.spawned
                   && t.spawned == s.spawned + {t.workers[me].pid})
    requires !HasPid(t.workers[me]) ==> t.spawned == s.spawned
    requires t.children == if HasChild(t.workers[me]) then s.children + {t.workers[me].pid}
                           else if HasChild(s.workers[me]) then s.children - {s.workers[me].pid} else s.children
    requires t.tracked == if IsTracked(t.workers[me]) then s.tracked + {t.workers[me].pid}
                          else if IsTracked(s.workers[me]) then s.tracked - {s.workers[me].pid} else s.tracked
    ensures ChildrenOwned(t)
  {
    forall pid | pid in t.children
      ensures exists w :: 0 <= w < |t.workers| && HasChild(t.workers[w]) && t.workers[w].pid == pid
    {
      if pid in s.children {
        var w :| 0 <= w < |s.workers| && HasChild(s.workers[w]) && s.workers[w].pid == pid;
        assert HasChild(t.workers[w]) && t.workers[w].pid == pid;
      } else {
        assert HasChild(t.workers[me]) && t.workers[me].pid == pid;
      }
    }
    forall pid | pid in t.tracked
      ensures exists w :: 0 <= w < |t.workers| && IsTracked(t.workers[w]) && t.workers[w].pid == pid
    {
      if pid in s.tracked {
        var w :| 0 <= w < |s.workers| && IsTracked(s.workers[w]) && s.workers[w].pid == pid;
        assert IsTracked(t.workers[w]) && t.workers[w].pid == pid;
      } else {
        assert IsTracked(t.workers[me]) && t.workers[me].pid == pid;
      }
    }
  }

  lemma StepChildren(s: State, step: Step)
    requires ChildrenOwned(s) && Enabled(s, step)
    ensures ChildrenOwned(Apply(s, step))
  {
    if Actor(step) >= 0 {
      PidEffect(s, step, Actor(step));
      ChildEffect(s, step, Actor(step));
      TrackEffect(s, step, Actor(step));
      ChildrenFrame(s, Apply(s, step), Actor(step));
    }
  }

  /** What a step does to its actor's child, and to nobody else's: to its pid, ... */
  lemma PidEffect(s: State, step: Step, me: nat)
    requires Enabled(s, step) && Actor(step) == me
    ensures var t := Apply(s, step);
            && |t.workers| == |s.workers| && t.workers == s.workers[me := t.workers[me]]
            && (HasPid(t.workers[me]) ==>
                  || (HasPid(s.workers[me]) && t.workers[me].pid == s.workers[me].pid && t.spawned == s.spawned)
                  || (!HasPid(s.workers[me]) && t.workers[me].pid !in s.spawned
                      && t.spawned == s.spawned + {t.workers[me].pid}))
            && (!HasPid(t.workers[me]) ==> t.spawned == s.spawned)
  {
    var _ := OnlyActorMoves(s, step);
  }

  /** ... to the child itself, ... */
  lemma ChildEffect(s: State, step: Step, me: nat)
    requires Enabled(s, step) && Actor(step) == me
    requires HasChild(s.workers[me]) ==> s.workers[me].pid in s.children
    ensures var t := Apply(s, step);
            && me < |t.workers|
            && t.children == if HasChild(t.workers[me]) then s.children + {t.workers[me].pid}
                             else if HasChild(s.workers[me]) then s.children - {s.workers[me].pid} else s.children
  {
    var _ := OnlyActorMoves(s, step);
    if HasChild(s.workers[me]) {
      assert s.children + {s.workers[me].pid} == s.children;
    }
  }

  /** ... and to its registration. */
  lemma TrackEffect(s: State, step: Step, me: nat)
    requires Enabled(s, step) && Actor(step) == me
    requires IsTracked(s.workers[me]) ==> s.workers[me].pid in s.tracked
    ensures var t := Apply(s, step);
            && me < |t.workers|
            && t.tracked == if IsTracked(t.workers[me]) then s.tracked + {t.workers[me].pid}
                            else if IsTracked(s.workers[me]) then s.tracked - {s.workers[me].pid} else s.tracked
  {
    var _ := OnlyActorMoves(s, step);
    if IsTracked(s.workers[me]) {
      assert s.tracked + {s.workers[me].pid} == s.tracked;
    }
  }

  /** One worker moves into the lock, out of it, or neither. */
  lemma LockFrame(s: State, t: State, me: nat)
    requires LockOwned(s)
    requires me < |s.workers| == |t.workers| && t.workers == s.workers[me := t.workers[me]]
    requires if InsideLock(t.workers[me]) == InsideLock(s.workers[me]) then t.lock == s.lock
             else if InsideLock(t.workers[me]) then s.lock.None? && t.lock == Some(me)
             else t.lock.None?
    ensures LockOwned(t)
  {
  }

  lemma StepLock(s: State, step: Step)
    requires LockOwned(s) && Enabled(s, step)
    ensures LockOwned(Apply(s, step))
  {
    var me := OnlyActorMoves(s, step);
    if me >= 0 {
      LockFrame(s, Apply(s, step), me);
    }
  }

  lemma StepInv(s: State, step: Step)
    requires Inv(s) && Enabled(s, step)
    ensures Inv(Apply(s, step))
    ensures Apply(s, step).n == s.n && |Apply(s, step).workers| == |s.workers|
  {
    StepAccounted(s, step);
    StepVerdicts(s, step);
    StepEndings(s, step);
    StepLock(s, step);
    StepChildren(s, step);
    StepShape(s, step);
  }

  lemma StepShape(s: State, step: Step)
    requires Enabled(s, step)
    ensures Apply(s, step).n == s.n && |Apply(s, step).workers| == |s.workers|
  {
    var _ := OnlyActorMoves(s, step);
  }

  // ---- whole runs ----

  predicate Runnable(s: State, run: seq<Step>)
    decreases |run|
  {
    run == [] || (Enabled(s, run[0]) && Runnable(Apply(s, run[0]), run[1..]))
  }

  function After(s: State, run: seq<Step>): State
    requires Runnable(s, run)
    decreases |run|
  {
    if run == [] then s else After(Apply(s, run[0]), run[1..])
  }

  lemma {:induction false} RunInv(s: State, run: seq<Step>)
    requires Inv(s) && Runnable(s, run)
    ensures Inv(After(s, run))
    ensures After(s, run).n == s.n && |After(s, run).workers| == |s.workers|
    decreases |run|
  {
    if run != [] {
      StepInv(s, run[0]);
      RunInv(Apply(s, run[0]), run[1..]);
    }
  }

  /** What the search answers, under every schedule: a winner is a candidate whose
      probe worked, and no winner means that the budget ran out or that every
      candidate was probed, once, and failed. */
  lemma SearchIsSoundAndComplete(n: nat, workers: nat, run: seq<Step>)
    requires n > 0 && workers > 0
    requires Runnable(Start(n, workers), run) && After(Start(n, workers), run).returned
    ensures var s := After(Start(n, workers), run);
            && (s.win.Some? ==> s.win.value.p < n && s.win.value.p in s.worked)
            && (s.win.None? ==> s.expired || ((forall p: nat :: p in s.failed <==> p < n) && s.dropped == {}))
  {
    StartInv(n, workers);
    RunInv(Start(n, workers), run);
    var s := After(Start(n, workers), run);
    if s.win.Some? {
      assert Settled(s, s.win.value.p);
    } else if !s.expired {
      assert s.workers[0].Left?;
      forall p: nat
        ensures p in s.failed <==> p < n
      {
        assert Settled(s, p) <==> p < s.next;
      }
    }
  }

  // ---- how far it goes on after a win ----

  function Lefts(workers: seq<Phase>): nat {
    if workers == [] then 0 else (if workers[0].Left? then 1 else 0) + Lefts(workers[1..])
  }

  lemma {:induction false} LeftsUpdate(workers: seq<Phase>, w: nat, ph: Phase)
    requires w < |workers| && !workers[w].Left?
    ensures Lefts(workers[w := ph]) == Lefts(workers) + (if ph.Left? then 1 else 0)
  {
    if w > 0 {
      LeftsUpdate(workers[1..], w - 1, ph);
      assert workers[w := ph][1..] == workers[1..][w - 1 := ph];
    } else {
      assert workers[w := ph][1..] == workers[1..];
    }
  }

  lemma {:induction false} AllLeft(workers: seq<Phase>)
    requires forall w | 0 <= w < |workers| :: workers[w].Left?
    ensures Lefts(workers) == |workers|
  {
    if workers != [] {
      AllLeft(workers[1..]);
    }
  }

  lemma {:induction false} NoneLeft(workers: seq<Phase>)
    requires forall w | 0 <= w < |workers| :: workers[w].Waiting?
    ensures Lefts(workers) == 0
  {
    if workers != [] {
      NoneLeft(workers[1..]);
    }
  }

  /** While there is budget and there are candidates, a worker only ends by winning. */
  predicate EndsByWinning(s: State) {
    s.expired || (s.closed && s.next == s.n) || Lefts(s.workers) == |s.worked|
  }

  lemma StepEndsByWinning(s: State, step: Step)
    requires Inv(s) && EndsByWinning(s) && Enabled(s, step)
    ensures EndsByWinning(Apply(s, step))
  {
    var me := OnlyActorMoves(s, step);
    if me >= 0 {
      var t := Apply(s, step);
      LeftsUpdate(s.workers, me, t.workers[me]);
      BookEffect(s, step, me);
    }
  }

  lemma {:induction false} RunEndsByWinning(s: State, run: seq<Step>)
    requires Inv(s) && EndsByWinning(s) && Runnable(s, run)
    ensures EndsByWinning(After(s, run))
    decreases |run|
  {
    if run != [] {
      StepInv(s, run[0]);
      StepEndsByWinning(s, run[0]);
      RunEndsByWinning(Apply(s, run[0]), run[1..]);
    }
  }

  /** The first win does not stop the search: if the budget lasts, it is over only once
      every candidate has been probed or every single worker has a winner of its own. */
  lemma SearchGoesOn(n: nat, workers: nat, run: seq<Step>)
    requires n > 0 && workers > 0 && Runnable(Start(n, workers), run)
    requires After(Start(n, workers), run).returned && !After(Start(n, workers), run).expired
    ensures var s := After(Start(n, workers), run);
            && s.dropped == {}
            && ((forall p: nat :: p in s.worked + s.failed <==> p < n)
                || |s.worked| == if workers < n then workers else n)
  {
    StartInv(n, workers);
    NoneLeft(Start(n, workers).workers);
    RunInv(Start(n, workers), run);
    RunEndsByWinning(Start(n, workers), run);
    var s := After(Start(n, workers), run);
    AllLeft(s.workers);
    if s.next == n {
      forall p: nat
        ensures p in s.worked + s.failed <==> p < n
      {
        assert Settled(s, p) <==> p < s.next;
      }
    }
  }

  /** At any moment of any schedule the throwaway children are exactly those of
      the workers that hold one, never more than the workers, and a probe's child
      is registered from before tempMu is released until it has been reaped. */
  lemma ThrowawayChildrenBounded(n: nat, workers: nat, run: seq<Step>)
    requires workers > 0 && Runnable(Start(n, workers), run)
    ensures var s := After(Start(n, workers), run);
            && |s.children| <= |s.workers| <= workers
            && (s.lock.Some? ==> s.lock.value < |s.workers|)
            && (forall pid | pid in s.children && pid !in s.tracked ::
                  s.lock.Some? && s.workers[s.lock.value].Launched? && s.workers[s.lock.value].pid == pid)
            && (s.returned ==> s.children == {} && s.tracked == {} && s.lock.None?)
  {
    StartInv(n, workers);
    RunInv(Start(n, workers), run);
    var s := After(Start(n, workers), run);
    ChildrenCount(s.workers, s.children);
    forall pid | pid in s.children && pid !in s.tracked
      ensures s.lock.Some? && s.workers[s.lock.value].Launched? && s.workers[s.lock.value].pid == pid
    {
      var w :| 0 <= w < |s.workers| && HasChild(s.workers[w]) && s.workers[w].pid == pid;
      assert !IsTracked(s.workers[w]);
    }
  }

  lemma {:induction false} ChildrenCount(workers: seq<Phase>, children: set<nat>)
    requires forall pid | pid in children ::
               exists w :: 0 <= w < |workers| && HasChild(workers[w]) && workers[w].pid == pid
    ensures |children| <= |workers|
  {
    if workers != [] {
      var k := |workers| - 1;
      var rest := if HasChild(workers[k]) then children - {workers[k].pid} else children;
      forall pid | pid in rest
        ensures exists w :: 0 <= w < k && HasChild(workers[..k][w]) && workers[..k][w].pid == pid
      {
        var w :| 0 <= w < |workers| && HasChild(workers[w]) && workers[w].pid == pid;
        assert workers[..k][w] == workers[w];
      }
      ChildrenCount(workers[..k], rest);
      if HasChild(workers[k]) && workers[k].pid in children {
        assert children == rest + {workers[k].pid};
      } else {
        assert children == rest;
      }
    } else {
      assert children == {};
    }
  }

  // ---- it always finishes ----

  predicate Finished(s: State) {
    s.returned && s.cancelled && s.closed
  }

  /** Somebody other than the clock can always move: the program never deadlocks,
      even when every worker has won and left the feeder holding a job. */
  method SomeProgress(s: State) returns (step: Step)
    requires Inv(s) && s.n > 0 && !Finished(s)
    ensures Enabled(s, step) && !step.Expire?
  {
    if w :| 0 <= w < |s.workers| && Holds(s.workers[w]) {
      var v := if s.workers[w].WantsPort? && s.lock.Some? then s.lock.value else w;
      match s.workers[v]
      case Received(_) => step := LookAtContext(v);
      case WantsPort(_) => step := TakeLock(v);
      case Allocating(_) => step := LaunchFails(v);
      case Launched(_, _) => step := Track(v);
      case Tracked(_, _) => step := WaitForPort(v, false);
      case Probing(_, _, _) => step := Probe(v, false, 0);
      case Stopping(_, _, _, _) => step := StopChild(v);
      case Stopped(_, _, _, _) => step := Untrack(v);
      case Graded(_, _, _) => step := Report(v);
    } else if w :| 0 <= w < |s.workers| && s.workers[w].Waiting? {
      step := if s.closed then Leave(w) else if s.next < s.n then Send(w) else FeederQuits;
    } else {
      step := if !s.returned then Return else if !s.cancelled then Cancel else FeederQuits;
    }
  }

  function Rank(ph: Phase): nat {
    match ph
    case Left => 0
    case Waiting => 1
    case Graded(_, _, _) => 2
    case Stopped(_, _, _, _) => 3
    case Stopping(_, _, _, _) => 4
    case Probing(_, _, _) => 5
    case Tracked(_, _) => 6
    case Launched(_, _) => 7
    case Allocating(_) => 8
    case WantsPort(_) => 9
    case Received(_) => 10
  }

  function Ranks(workers: seq<Phase>): nat {
    if workers == [] then 0 else Rank(workers[0]) + Ranks(workers[1..])
  }

  function Flags(s: State): nat {
    (if s.expired then 0 else 1) + (if s.closed then 0 else 1)
    + (if s.returned then 0 else 1) + (if s.cancelled then 0 else 1)
  }

  function Work(s: State): nat
    requires s.next <= s.n
  {
    10 * (s.n - s.next) + Ranks(s.workers) + Flags(s)
  }

  lemma {:induction false} RanksUpdate(workers: seq<Phase>, w: nat, ph: Phase)
    requires w < |workers|
    ensures Ranks(workers[w := ph]) == Ranks(workers) - Rank(workers[w]) + Rank(ph)
  {
    if w > 0 {
      RanksUpdate(workers[1..], w - 1, ph);
      assert workers[w := ph][1..] == workers[1..][w - 1 := ph];
    } else {
      assert workers[w := ph][1..] == workers[1..];
    }
  }

  /** The actor advances by at least one rank, unless it was just handed a job;
      a step without an actor raises a flag. */
  lemma StepAdvances(s: State, step: Step)
    requires Enabled(s, step)
    ensures var t := Apply(s, step);
            var me := Actor(step);
            && (me < 0 ==> t.next == s.next && Flags(t) < Flags(s))
            && (me >= 0 ==> Flags(t) == Flags(s))
            && (me >= 0 && !step.Send? ==> t.next == s.next && Rank(t.workers[me]) < Rank(s.workers[me]))
            && (step.Send? ==> t.next == s.next + 1 && Rank(t.workers[me]) == Rank(s.workers[me]) + 9)
  {
    var _ := OnlyActorMoves(s, step);
  }

  lemma StepWorks(s: State, step: Step)
    requires Accounted(s) && Enabled(s, step)
    ensures Apply(s, step).next <= s.n == Apply(s, step).n && Work(Apply(s, step)) < Work(s)
  {
    var t := Apply(s, step);
    var me := OnlyActorMoves(s, step);
    StepAdvances(s, step);
    if me >= 0 {
      RanksUpdate(s.workers, me, t.workers[me]);
    }
  }

  /** No schedule goes on for ever: every step uses up work. */
  lemma {:induction false} RunsAreBounded(s: State, run: seq<Step>)
    requires Inv(s) && Runnable(s, run)
    ensures Inv(After(s, run)) && |run| + Work(After(s, run)) <= Work(s)
    decreases |run|
  {
    if run != [] {
      StepInv(s, run[0]);
      StepWorks(s, run[0]);
      RunsAreBounded(Apply(s, run[0]), run[1..]);
    }
  }

  /** The search as its caller sees it: under whatever schedule is drawn, it comes
      back, and with the answer of a complete run. Each turn draws a step at
      random and falls back to some progress when the draw cannot move. */
  method SearchCandidates(n: nat, workerCount: nat) returns (win: Option<Win>, ghost run: seq<Step>)
    requires n > 0 && workerCount > 0
    ensures Runnable(Start(n, workerCount), run)
    ensures After(Start(n, workerCount), run).returned && win == After(Start(n, workerCount), run).win
  {
    ghost var s0 := Start(n, workerCount);
    var s := Start(n, workerCount);
    run := [];
    StartInv(n, workerCount);
    while !s.returned
      invariant Inv(s) && s.n == n
      invariant Runnable(s0, run) && After(s0, run) == s
      decreases Work(s)
    {
      var step: Step := *;
      if !Enabled(s, step) {
        step := SomeProgress(s);
      }
      StepInv(s, step);
      StepWorks(s, step);
      Extend(s0, run, step);
      s, run := Apply(s, step), run + [step];
    }
    win := s.win;
  }

  lemma {:induction false} Extend(s: State, run: seq<Step>, step: Step)
    requires Runnable(s, run) && Enabled(After(s, run), step)
    ensures Runnable(s, run + [step]) && After(s, run + [step]) == Apply(After(s, run), step)
    decreases |run|
  {
    if run != [] {
      Extend(Apply(s, run[0]), run[1..], step);
      assert (run + [step])[1..] == run[1..] + [step];
    }
  }

  /** The shortest search that wins: one candidate, one worker, one probe. */
  lemma OneProbeWins(latency: nat) returns (run: seq<Step>)
    ensures Runnable(Start(1, 1), run)
    ensures After(Start(1, 1), run).returned && After(Start(1, 1), run).win == Some(Win(0, latency))
    ensures 0 in After(Start(1, 1), run).worked
  {
    var s;
    run, s := OneProbeStarts();
    run, s := Then(run, s, Probe(0, true, latency));
    run, s := Then(run, s, StopChild(0));
    run, s := Then(run, s, Untrack(0));
    run, s := Then(run, s, Report(0));
    run, s := Then(run, s, Return);
  }

  lemma OneProbeStarts() returns (run: seq<Step>, s: State)
    ensures Runnable(Start(1, 1), run) && After(Start(1, 1), run) == s
    ensures s == State(1, 1, false, false, false, false, [Probing(0, 1, true)], None, {1}, {1}, {1}, None, {}, {}, {})
  {
    run, s := [], Start(1, 1);
    run, s := Then(run, s, Send(0));
    run, s := Then(run, s, LookAtContext(0));
    run, s := Then(run, s, TakeLock(0));
    run, s := Then(run, s, Launch(0, 1));
    run, s := Then(run, s, Track(0));
    run, s := Then(run, s, WaitForPort(0, true));
  }

  lemma Then(run: seq<Step>, s: State, step: Step) returns (run': seq<Step>, s': State)
    requires Runnable(Start(1, 1), run) && After(Start(1, 1), run) == s && Enabled(s, step)
    ensures Runnable(Start(1, 1), run') && After(Start(1, 1), run') == s' && s' == Apply(s, step)
  {
    Extend(Start(1, 1), run, step);
    run', s' := run + [step], Apply(s, step);
  }
}
