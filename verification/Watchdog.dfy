// The orphan prune (v2proxy/watchdog.go), its keep set, and its race against the
// launch and the registration of children (v2proxy/selector.go).

module Watchdog {
  import opened Pool
  import Search
  import Selector = SelectorState

  // ---- the prune as one pass over its snapshots ----

  /** Every found process absent from the keep set, once each. */
  method OrphanVictims(found: set<nat>, keep: set<nat>) returns (victims: seq<nat>)
    ensures forall pid :: pid in victims <==> pid in found && pid !in keep
    ensures forall i, j | 0 <= i < j < |victims| :: victims[i] != victims[j]
  {
    victims := [];
    var rest := found;
    while rest != {}
      invariant rest <= found
      invariant forall pid :: pid in victims <==> pid in found - rest && pid !in keep
      invariant forall i, j | 0 <= i < j < |victims| :: victims[i] != victims[j]
      decreases |rest|
    {
      var pid :| pid in rest;
      rest := rest - {pid};
      if pid !in keep {
        victims := victims + [pid];
      }
    }
  }

  /** What one selector owns up to: its serving handle's process (0 for none) and its
      throwaway probes. */
  datatype Owner = Owner(serving: nat, temps: set<nat>)

  function Owned(o: Owner): set<nat> {
    (if o.serving > 0 then {o.serving} else {}) + o.temps
  }

  method ManagedPIDs(owners: seq<Owner>) returns (pids: set<nat>)
    ensures forall pid :: pid in pids <==> exists i :: 0 <= i < |owners| && pid in Owned(owners[i])
  {
    pids := {};
    for i := 0 to |owners|
      invariant forall pid :: pid in pids <==> exists j :: 0 <= j < i && pid in Owned(owners[j])
    {
      if owners[i].serving > 0 {
        pids := pids + {owners[i].serving};
      }
      pids := pids + owners[i].temps;
    }
  }

  /** One prune over its two keep snapshots. `ours` are the processes whose command
      line still matches when they are looked at again. */
  method PruneOrphans(found: set<nat>, keep1: set<nat>, keep2: set<nat>, ours: set<nat>)
    returns (killed: nat, signalled: seq<nat>)
    ensures forall pid :: pid in signalled <==> pid in found && pid !in keep1 && pid !in keep2 && pid in ours
    ensures forall i, j | 0 <= i < j < |signalled| :: signalled[i] != signalled[j]
    ensures killed == |signalled|
  {
    killed, signalled := 0, [];
    if found == {} {
      return;
    }
    var victims := OrphanVictims(found, keep1);
    if victims == [] {
      forall pid | pid in found ensures pid in keep1 {
        assert pid !in victims;
      }
      return;
    }
    for i := 0 to |victims|
      invariant forall pid :: pid in signalled <==> pid in victims[..i] && pid !in keep2 && pid in ours
      invariant forall a, b | 0 <= a < b < |signalled| :: signalled[a] != signalled[b]
      invariant killed == |signalled|
    {
      var pid := victims[i];
      assert victims[..i + 1] == victims[..i] + [pid];
      assert pid !in victims[..i];
      if pid !in keep2 && pid in ours {
        signalled := signalled + [pid];
        killed := killed + 1;
      }
    }
    assert victims[..|victims|] == victims;
  }

  /** During one switch pass the children that run are the serving one and those of
      the search's workers: never more than one plus the workers, and each of them is
      owned as ManagedPIDs sees it, save one that its worker, inside tempMu, has
      launched and not registered yet. */
  lemma SwitchChildrenAreOwned(sel: Selector.State, n: nat, workers: nat, run: seq<Search.Step>)
    requires Selector.Inv(sel) && (forall pid | pid in sel.live :: pid > 0)
    requires workers > 0 && Search.Runnable(Search.Start(n, workers), run)
    ensures var search := Search.After(Search.Start(n, workers), run);
            var handle := if sel.handle.Some? then sel.handle.value else 0;
            && |sel.live.Keys + search.children| <= 1 + workers
            && forall pid | pid in sel.live.Keys + search.children ::
                 pid in Owned(Owner(handle, search.tracked))
                 || (search.lock.Some? && search.lock.value < |search.workers|
                     && search.workers[search.lock.value].Launched? && search.workers[search.lock.value].pid == pid)
  {
    Selector.AtMostOneChild(sel);
    Search.ThrowawayChildrenBounded(n, workers, run);
    var search := Search.After(Search.Start(n, workers), run);
    assert |sel.live.Keys| == |sel.live|;
    assert |sel.live.Keys + search.children| == |sel.live.Keys| + |search.children - sel.live.Keys|;
    SubsetSize(search.children - sel.live.Keys, search.children);
  }

  // ---- the prune against concurrent launches ----

  /** Milliseconds between the two keep snapshots. */
  const GRACE := 500

  /** A child's place in the books. A register is one serving handle or one set of
      throwaway probes; a leftover belongs to no selector of this run. */
  datatype Standing =
    | Pending(register: nat, launched: nat)
    | Registered(register: nat)
    | Released
    | Leftover

  datatype Child = Child(standing: Standing, alive: bool)

  /** Where the prune is. It reading /proc entry by entry and the registers one by one,
      so neither snapshot is taken at one moment. `orphans` is for the proofs: who was
      alive and in nobody's books when the pass began. */
  datatype Pass =
    | Idle
    | Scanning(entries: set<nat>, found: set<nat>, orphans: set<nat>)
    | FirstKeep(found: set<nat>, next: nat, keep: set<nat>, orphans: set<nat>)
    | Sleeping(victims: set<nat>, until: nat, orphans: set<nat>)
    | SecondKeep(victims: set<nat>, next: nat, keep: set<nat>, orphans: set<nat>)
    | Killing(victims: set<nat>, keep: set<nat>, killed: set<nat>, orphans: set<nat>)
    | Done(killed: set<nat>, orphans: set<nat>)

  /** `registers` is how many there are, `delay` the longest time that a live child goes
      from its launch to its registration. `kills` logs the standing of every process at the moment it was killed. */
  datatype State = State(now: nat, children: map<nat, Child>, pass: Pass, kills: seq<Standing>)

  datatype Params = Params(registers: nat, delay: nat)

  datatype Step =
    | Tick(now: nat)
    | Launch(pid: nat, register: nat)
    | Register(pid: nat)
    | Release(pid: nat)
    | Die(pid: nat)
    | BeginScan
    | ScanOne(pid: nat)
    | EndScan
    | CollectOne
    | EndFirst
    | Wake
    | EndSecond
    | Examine(pid: nat)
    | Finish
    | Rest

  /** Only leftovers of an earlier run exist at the start. */
  predicate Initial(s: State) {
    && (forall pid | pid in s.children :: s.children[pid].standing == Leftover)
    && s.pass == Idle
    && s.kills == []
  }

  function Alive(children: map<nat, Child>): set<nat> {
    set pid | pid in children && children[pid].alive
  }

  function Orphans(children: map<nat, Child>): set<nat> {
    set pid | pid in children && children[pid].alive
              && (children[pid].standing.Released? || children[pid].standing.Leftover?)
  }

  function InRegister(children: map<nat, Child>, register: nat): set<nat> {
    set pid | pid in children && children[pid].standing == Registered(register)
  }

  predicate Enabled(s: State, p: Params, step: Step) {
    match step
    case Tick(now) =>
      now >= s.now
      && forall pid | pid in s.children && s.children[pid].alive && s.children[pid].standing.Pending? ::
           now <= s.children[pid].standing.launched + p.delay
    case Launch(pid, register) => pid !in s.children && register < p.registers
    case Register(pid) => pid in s.children && s.children[pid].standing.Pending?
    case Release(pid) => pid in s.children && s.children[pid].standing.Registered?
    case Die(pid) => pid in s.children
    case BeginScan => s.pass.Idle?
    case ScanOne(pid) => s.pass.Scanning? && pid in s.pass.entries
    case EndScan => s.pass.Scanning? && s.pass.entries == {}
    case CollectOne => (s.pass.FirstKeep? || s.pass.SecondKeep?) && s.pass.next < p.registers
    case EndFirst => s.pass.FirstKeep? && s.pass.next >= p.registers
    case Wake => s.pass.Sleeping? && s.now >= s.pass.until
    case EndSecond => s.pass.SecondKeep? && s.pass.next >= p.registers
    case Examine(pid) => s.pass.Killing? && pid in s.pass.victims
    case Finish => s.pass.Killing? && s.pass.victims == {}
    case Rest => s.pass.Done?
  }

  /** The process that this step kills. */
  function Killed(s: State, step: Step): Option<nat> {
    if step.Examine? && s.pass.Killing? && step.pid !in s.pass.keep && step.pid in Alive(s.children)
    then Some(step.pid)
    else None
  }

  function Apply(s: State, p: Params, step: Step): State
    requires Enabled(s, p, step)
  {
    match step
    case Tick(now) => s.(now := now)
    case Launch(pid, register) => s.(children := s.children[pid := Child(Pending(register, s.now), true)])
    case Register(pid) =>
      var child := s.children[pid];
      s.(children := s.children[pid := child.(standing := Registered(child.standing.register))])
    case Release(pid) => s.(children := s.children[pid := s.children[pid].(standing := Released)])
    case Die(pid) => s.(children := s.children[pid := s.children[pid].(alive := false)])
    case BeginScan => s.(pass := Scanning(Alive(s.children), {}, Orphans(s.children)))
    case ScanOne(pid) =>
      s.(pass := s.pass.(entries := s.pass.entries - {pid},
                         found := s.pass.found + (if pid in Alive(s.children) then {pid} else {})))
    case EndScan =>
      s.(pass := if s.pass.found == {} then Done({}, s.pass.orphans)
                 else FirstKeep(s.pass.found, 0, {}, s.pass.orphans))
    case CollectOne => s.(pass := s.pass.(next := s.pass.next + 1,
                                          keep := s.pass.keep + InRegister(s.children, s.pass.next)))
    case EndFirst =>
      var victims := s.pass.found - s.pass.keep;
      s.(pass := if victims == {} then Done({}, s.pass.orphans) else Sleeping(victims, s.now + GRACE, s.pass.orphans))
    case Wake => s.(pass := SecondKeep(s.pass.victims, 0, {}, s.pass.orphans))
    case EndSecond => s.(pass := Killing(s.pass.victims, s.pass.keep, {}, s.pass.orphans))
    case Examine(pid) =>
      var rest := s.pass.victims - {pid};
      if Killed(s, step).Some? then
        s.(children := s.children[pid := s.children[pid].(alive := false)],
           pass := Killing(rest, s.pass.keep, s.pass.killed + {pid}, s.pass.orphans),
           kills := s.kills + [s.children[pid].standing])
      else s.(pass := Killing(rest, s.pass.keep, s.pass.killed, s.pass.orphans))
    case Finish => s.(pass := Done(s.pass.killed, s.pass.orphans))
    case Rest => s.(pass := Idle)
  }

  // ---- the inductive invariant ----

  predicate Disowned(st: Standing) {
    st.Released? || st.Leftover?
  }

  /** Whom the pass is still bound to examine, or has found so far. */
  function Suspects(pass: Pass): set<nat> {
    match pass
    case Scanning(_, found, _) => found
    case FirstKeep(found, _, _, _) => found
    case Sleeping(victims, _, _) => victims
    case SecondKeep(victims, _, _, _) => victims
    case Killing(victims, _, _, _) => victims
    case _ => {}
  }

  ghost predicate Booked(s: State, p: Params) {
    forall pid {:trigger s.children[pid]} | pid in s.children ::
      var st := s.children[pid].standing;
      && (st.Pending? ==> st.launched <= s.now && st.register < p.registers)
      && (st.Pending? && s.children[pid].alive ==> s.now <= st.launched + p.delay)
      && (st.Registered? ==> st.register < p.registers)
  }

  /** After the sleep every live suspect's registration is behind it, and one still in
      a register that was read again is in the second keep set. */
  ghost predicate Safe(s: State, pid: nat) {
    pid in s.children
    && var st := s.children[pid].standing;
       match s.pass
       case Sleeping(_, until, _) => st.Pending? ==> st.launched + GRACE <= until
       case SecondKeep(_, next, keep, _) =>
         s.children[pid].alive ==> !st.Pending? && (st.Registered? && st.register < next ==> pid in keep)
       case Killing(_, keep, _, _) => s.children[pid].alive ==> !st.Pending? && (st.Registered? ==> pid in keep)
       case _ => true
  }

  ghost predicate Inv(s: State, p: Params) {
    && Booked(s, p)
    && (s.pass.Scanning? ==> s.pass.entries <= s.children.Keys)
    && (forall pid | pid in Suspects(s.pass) :: Safe(s, pid))
    && (forall k | 0 <= k < |s.kills| :: Disowned(s.kills[k]))
  }

  lemma StepInv(s: State, p: Params, step: Step)
    requires p.delay < GRACE && Inv(s, p) && Enabled(s, p, step)
    ensures Inv(Apply(s, p, step), p)
  {
    var t := Apply(s, p, step);
    assert s.children.Keys <= t.children.Keys;
    forall pid | pid in Suspects(t.pass) ensures Safe(t, pid) {
      if !step.ScanOne? {
        assert pid in Suspects(s.pass) && Safe(s, pid);
      } else if pid in Suspects(s.pass) {
        assert Safe(s, pid);
      }
    }
    if Killed(s, step).Some? {
      assert Safe(s, step.pid);
    }
  }

  predicate Runnable(s: State, p: Params, run: seq<Step>)
    decreases |run|
  {
    run == [] || (Enabled(s, p, run[0]) && Runnable(Apply(s, p, run[0]), p, run[1..]))
  }

  function After(s: State, p: Params, run: seq<Step>): State
    requires Runnable(s, p, run)
    decreases |run|
  {
    if run == [] then s else After(Apply(s, p, run[0]), p, run[1..])
  }

  lemma {:induction false} RunInv(s: State, p: Params, run: seq<Step>)
    requires p.delay < GRACE && Inv(s, p) && Runnable(s, p, run)
    ensures Inv(After(s, p, run), p)
    decreases |run|
  {
    if run != [] {
      StepInv(s, p, run[0]);
      RunInv(Apply(s, p, run[0]), p, run[1..]);
    }
  }

  /** With registration following launch by less than the grace, no schedule of
      launches, stops, deaths and prune passes ever kills a process that a selector
      owns, or is about to own, at the moment of the kill. */
  lemma OnlyOrphansAreKilled(s: State, p: Params, run: seq<Step>)
    requires p.delay < GRACE && Initial(s) && Runnable(s, p, run)
    ensures forall k | 0 <= k < |After(s, p, run).kills| :: Disowned(After(s, p, run).kills[k])
  {
    RunInv(s, p, run);
  }

  /** The grace is exactly what that takes: at any longer delay some run kills a child
      whose launch has not been registered yet. */
  lemma SlowRegistrationIsKilled(p: Params) returns (s: State, run: seq<Step>)
    requires p.registers > 0
    ensures Initial(s)
    ensures p.delay >= GRACE ==>
              Runnable(s, p, run) && exists k :: 0 <= k < |After(s, p, run).kills| && After(s, p, run).kills[k].Pending?
  {
    s, run := State(0, map[], Idle, []), [];
    if p.delay >= GRACE {
      var launched := Apply(s, p, Launch(7, 0));
      var asleep, first := UpToTheSleep(launched, p, 7);
      var last;
      last, run := AfterTheSleep(asleep, p, 7);
      run := Chain(launched, p, first, run);
      run := Prepend(s, p, Launch(7, 0), run);
      assert last.kills[|last.kills| - 1] == Pending(0, 0);
    }
  }

  /** A pass over one unregistered child, as far as its sleep ... */
  lemma UpToTheSleep(s: State, p: Params, pid: nat) returns (t: State, run: seq<Step>)
    requires s.pass.Idle? && pid in s.children && s.children[pid].alive && s.children == map[pid := s.children[pid]]
    requires s.children[pid].standing.Pending?
    ensures Runnable(s, p, run) && After(s, p, run) == t
    ensures t == s.(pass := t.pass) && t.pass.Sleeping? && t.pass.victims == {pid} && t.pass.until == s.now + GRACE
  {
    var scanning := Apply(s, p, BeginScan);
    assert scanning.pass.entries == {pid};
    var found := Apply(scanning, p, ScanOne(pid));
    assert found.pass.found == {pid} && found.pass.entries == {};
    var first := Apply(found, p, EndScan);
    var read, reading := CollectAll(first, p);
    t := Apply(read, p, EndFirst);
    assert t.pass.victims == {pid};
    run := [EndFirst];
    run := Chain(first, p, reading, run);
    run := Prepend(found, p, EndScan, run);
    run := Prepend(scanning, p, ScanOne(pid), run);
    run := Prepend(s, p, BeginScan, run);
  }

  /** ... and from there to the kill. */
  lemma AfterTheSleep(s: State, p: Params, pid: nat) returns (t: State, run: seq<Step>)
    requires s.pass.Sleeping? && s.pass.victims == {pid} && s.now <= s.pass.until
    requires pid in s.children && s.children[pid].alive && s.children == map[pid := s.children[pid]]
    requires s.children[pid].standing.Pending? && s.pass.until <= s.children[pid].standing.launched + p.delay
    ensures Runnable(s, p, run) && After(s, p, run) == t
    ensures t.kills == s.kills + [s.children[pid].standing]
  {
    var rested := Apply(s, p, Tick(s.pass.until));
    var second := Apply(rested, p, Wake);
    var read, reading := CollectAll(second, p);
    var killing := Apply(read, p, EndSecond);
    assert Killed(killing, Examine(pid)) == Some(pid);
    t := Apply(killing, p, Examine(pid));
    run := [Examine(pid)];
    run := Prepend(read, p, EndSecond, run);
    run := Chain(second, p, reading, run);
    run := Prepend(rested, p, Wake, run);
    run := Prepend(s, p, Tick(s.pass.until), run);
  }

  lemma Prepend(s: State, p: Params, step: Step, rest: seq<Step>) returns (run: seq<Step>)
    requires Enabled(s, p, step) && Runnable(Apply(s, p, step), p, rest)
    ensures run == [step] + rest && Runnable(s, p, run)
    ensures After(s, p, run) == After(Apply(s, p, step), p, rest)
  {
    run := [step] + rest;
    assert run[1..] == rest;
  }

  lemma {:induction false} Chain(s: State, p: Params, first: seq<Step>, rest: seq<Step>) returns (run: seq<Step>)
    requires Runnable(s, p, first) && Runnable(After(s, p, first), p, rest)
    ensures run == first + rest && Runnable(s, p, run)
    ensures After(s, p, run) == After(After(s, p, first), p, rest)
    decreases |first|
  {
    if first == [] {
      run := rest;
      assert run == first + rest;
    } else {
      run := Chain(Apply(s, p, first[0]), p, first[1..], rest);
      run := Prepend(s, p, first[0], run);
      assert run == first + rest;
    }
  }

  /** Reads the registers that are left while nothing is registered anywhere. */
  lemma {:induction false} CollectAll(s: State, p: Params) returns (t: State, run: seq<Step>)
    requires s.pass.FirstKeep? || s.pass.SecondKeep?
    requires forall pid | pid in s.children :: !s.children[pid].standing.Registered?
    ensures Runnable(s, p, run) && After(s, p, run) == t
    ensures t.now == s.now && t.children == s.children && t.kills == s.kills
    ensures if s.pass.FirstKeep? then t.pass.FirstKeep? && t.pass.found == s.pass.found
            else t.pass.SecondKeep? && t.pass.victims == s.pass.victims
    ensures t.pass.keep == s.pass.keep && t.pass.next >= p.registers
    decreases p.registers - s.pass.next
  {
    if s.pass.next >= p.registers {
      t, run := s, [];
    } else {
      assert InRegister(s.children, s.pass.next) == {};
      t, run := CollectAll(Apply(s, p, CollectOne), p);
      run := Prepend(s, p, CollectOne, run);
    }
  }

  // ---- what a pass gets done ----

  /** An orphan of the pass is dead, or still to be scanned or examined, and in no keep set. */
  ghost predicate Tracked(s: State, pid: nat) {
    && pid in s.children && Disowned(s.children[pid].standing)
    && (s.pass.FirstKeep? || s.pass.SecondKeep? || s.pass.Killing? ==> pid !in s.pass.keep)
    && (s.children[pid].alive ==>
          pid in Suspects(s.pass) || (s.pass.Scanning? && pid in s.pass.entries))
  }

  ghost predicate Thorough(s: State) {
    && (!s.pass.Idle? ==> forall pid | pid in s.pass.orphans :: Tracked(s, pid))
    && (s.pass.Killing? || s.pass.Done? ==>
          forall pid | pid in s.pass.killed :: pid in s.children && !s.children[pid].alive)
  }

  lemma StepThorough(s: State, p: Params, step: Step)
    requires Thorough(s) && Enabled(s, p, step)
    ensures Thorough(Apply(s, p, step))
  {
    var t := Apply(s, p, step);
    if !t.pass.Idle? && !step.BeginScan? {
      forall pid | pid in t.pass.orphans ensures Tracked(t, pid) {
        assert Tracked(s, pid);
      }
    }
  }

  lemma {:induction false} RunThorough(s: State, p: Params, run: seq<Step>)
    requires Thorough(s) && Runnable(s, p, run)
    ensures Thorough(After(s, p, run))
    decreases |run|
  {
    if run != [] {
      StepThorough(s, p, run[0]);
      RunThorough(Apply(s, p, run[0]), p, run[1..]);
    }
  }

  /** Whatever runs beside it, a pass that is over has left none of the orphans alive
      that it began with, and everything it counted as killed is dead. */
  lemma OrphansDoNotOutliveAPass(s: State, p: Params, run: seq<Step>)
    requires Initial(s) && Runnable(s, p, run)
    ensures var t := After(s, p, run);
            t.pass.Done? ==>
              && (forall pid | pid in t.pass.orphans :: pid in t.children && !t.children[pid].alive)
              && (forall pid | pid in t.pass.killed :: pid in t.children && !t.children[pid].alive)
  {
    RunThorough(s, p, run);
    var t := After(s, p, run);
    if t.pass.Done? {
      forall pid | pid in t.pass.orphans ensures pid in t.children && !t.children[pid].alive {
        assert Tracked(t, pid);
      }
    }
  }
}
