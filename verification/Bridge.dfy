// The HTTP bridge's connection slots and its bounded dial (v2proxy/httpproxy.go).

module Slots {

  /** sync.Once around the slot's return. */
  datatype Once = Unused | Sending(byHandler: bool) | Used

  datatype Handler = Running | HandlerDefer | Returned

  datatype Relay = NotStarted | Live | RelayDefer | Ended

  datatype Request =
    | Arrived(connect: bool)
    | Rejected
    | Plain                                             // holds its slot
    | PlainDone
    | Tunnel(handler: Handler, relay: Relay, once: Once)

  datatype State = State(capacity: nat, tokens: nat, requests: seq<Request>)

  datatype Step =
    | Arrive(connect: bool)
    | Acquire(i: nat)
    | TimeOut(i: nat)
    | PlainReturns(i: nat)
    | TunnelFails(i: nat)
    | Splice(i: nat)
    | RelayEnds(i: nat)
    | EnterOnce(i: nat, byHandler: bool)
    | SendToken(i: nat)
    | PassOnce(i: nat, byHandler: bool)

  predicate AtDefer(r: Request, byHandler: bool) {
    r.Tunnel? && if byHandler then r.handler.HandlerDefer? else r.relay.RelayDefer?
  }

  function PastDefer(r: Request, byHandler: bool): Request
    requires r.Tunnel?
  {
    if byHandler then r.(handler := Returned) else r.(relay := Ended)
  }

  predicate Enabled(s: State, step: Step) {
    match step
    case Arrive(_) => true
    case Acquire(i) => i < |s.requests| && s.requests[i].Arrived? && s.tokens > 0
    case TimeOut(i) => i < |s.requests| && s.requests[i].Arrived?
    // A send on the token channel can go ahead only while it has room.
    case PlainReturns(i) => i < |s.requests| && s.requests[i].Plain? && s.tokens < s.capacity
    case TunnelFails(i) => i < |s.requests| && s.requests[i].Tunnel? && s.requests[i].handler.Running?
    case Splice(i) => i < |s.requests| && s.requests[i].Tunnel? && s.requests[i].handler.Running?
    case RelayEnds(i) => i < |s.requests| && s.requests[i].Tunnel? && s.requests[i].relay.Live?
    case EnterOnce(i, h) => i < |s.requests| && AtDefer(s.requests[i], h) && s.requests[i].once.Unused?
    case SendToken(i) => i < |s.requests| && s.requests[i].Tunnel? && s.requests[i].once.Sending?
      && s.tokens < s.capacity
    case PassOnce(i, h) => i < |s.requests| && AtDefer(s.requests[i], h) && s.requests[i].once.Used?
  }

  function Put(s: State, i: nat, r: Request): State
    requires i < |s.requests|
  {
    s.(requests := s.requests[i := r])
  }

  function Apply(s: State, step: Step): State
    requires Enabled(s, step)
  {
    match step
    case Arrive(connect) => s.(requests := s.requests + [Arrived(connect)])
    case Acquire(i) =>
      Put(s, i, if s.requests[i].connect then Tunnel(Running, NotStarted, Unused) else Plain).(tokens := s.tokens - 1)
    case TimeOut(i) => Put(s, i, Rejected)
    case PlainReturns(i) => Put(s, i, PlainDone).(tokens := s.tokens + 1)
    case TunnelFails(i) => Put(s, i, s.requests[i].(handler := HandlerDefer))
    case Splice(i) => Put(s, i, s.requests[i].(handler := HandlerDefer, relay := Live))
    case RelayEnds(i) => Put(s, i, s.requests[i].(relay := RelayDefer))
    case EnterOnce(i, h) => Put(s, i, s.requests[i].(once := Sending(h)))
    case SendToken(i) =>
      Put(s, i, PastDefer(s.requests[i], s.requests[i].once.byHandler).(once := Used)).(tokens := s.tokens + 1)
    case PassOnce(i, h) => Put(s, i, PastDefer(s.requests[i], h))
  }

  predicate HoldsSlot(r: Request) {
    r.Plain? || (r.Tunnel? && !r.once.Used?)
  }

  function Held(requests: seq<Request>): nat {
    if requests == [] then 0
    else Held(requests[..|requests| - 1]) + (if HoldsSlot(requests[|requests| - 1]) then 1 else 0)
  }

  predicate RequestInv(r: Request) {
    r.Tunnel? ==>
      && (r.once.Sending? ==> AtDefer(r, r.once.byHandler))
      && (r.handler.Returned? || r.relay.Ended? ==> r.once.Used?)
      && (r.handler.Running? ==> r.relay.NotStarted?)
      && (r.once.Used? ==> r.handler.Returned? || r.relay.Ended?)
  }

  ghost predicate Inv(s: State) {
    && s.tokens + Held(s.requests) == s.capacity
    && forall i | 0 <= i < |s.requests| :: RequestInv(s.requests[i])
  }

  lemma {:induction false} HeldUpdate(requests: seq<Request>, i: nat, r: Request)
    requires i < |requests|
    ensures Held(requests[i := r]) ==
            Held(requests) - (if HoldsSlot(requests[i]) then 1 else 0) + (if HoldsSlot(r) then 1 else 0)
  {
    var n := |requests| - 1;
    if i < n {
      HeldUpdate(requests[..n], i, r);
      assert requests[i := r][..n] == requests[..n][i := r];
    } else {
      assert requests[i := r][..n] == requests[..n];
    }
  }

  lemma StepInv(s: State, step: Step)
    requires Inv(s) && Enabled(s, step)
    ensures Inv(Apply(s, step))
  {
    var t := Apply(s, step);
    if step.Arrive? {
      assert t.requests[..|s.requests|] == s.requests;
    } else {
      HeldUpdate(s.requests, step.i, t.requests[step.i]);
      assert RequestInv(s.requests[step.i]);
    }
  }

  predicate Runnable(s: State, run: seq<Step>)
    decreases |run|
  {
    run == [] || (Enabled(s, run[0]) && Runnable(Apply(s, run[0]), run[1..]))
  }

  function After(s: State, run: seq<Step>): State
    requires Runnable(s, run)
    decreases |run|
  {
    if run == [] then s else After(Apply(s, run[0]), run[1..])
  }

  lemma {:induction false} RunInv(s: State, run: seq<Step>)
    requires Inv(s) && Runnable(s, run)
    ensures Inv(After(s, run)) && After(s, run).capacity == s.capacity
    decreases |run|
  {
    if run != [] {
      StepInv(s, run[0]);
      RunInv(Apply(s, run[0]), run[1..]);
    }
  }

  function Filled(capacity: nat): State {
    State(capacity, capacity, [])
  }

  /** In every reachable state of any number of plain and CONNECT requests: free
      tokens plus held slots are the capacity, and whoever is about to return a
      token finds room for it, so the return never blocks. */
  lemma SlotsAreConserved(capacity: nat, run: seq<Step>)
    requires Runnable(Filled(capacity), run)
    ensures var s := After(Filled(capacity), run);
            && s.tokens + Held(s.requests) == capacity
            && (forall i | 0 <= i < |s.requests| && s.requests[i].Plain? :: Enabled(s, PlainReturns(i)))
            && (forall i | 0 <= i < |s.requests| && s.requests[i].Tunnel? && s.requests[i].once.Sending? ::
                Enabled(s, SendToken(i)))
  {
    RunInv(Filled(capacity), run);
    ReturnsFindRoom(After(Filled(capacity), run));
  }

  lemma ReturnsFindRoom(s: State)
    requires Inv(s)
    ensures forall i | 0 <= i < |s.requests| && s.requests[i].Plain? :: Enabled(s, PlainReturns(i))
    ensures forall i | 0 <= i < |s.requests| && s.requests[i].Tunnel? && s.requests[i].once.Sending? ::
            Enabled(s, SendToken(i))
  {
    forall i | 0 <= i < |s.requests| && HoldsSlot(s.requests[i])
      ensures s.tokens < s.capacity
    {
      HolderIsCounted(s.requests, i);
    }
  }

  lemma {:induction false} HolderIsCounted(requests: seq<Request>, i: nat)
    requires i < |requests| && HoldsSlot(requests[i])
    ensures Held(requests) > 0
  {
    var n := |requests| - 1;
    if i < n {
      HolderIsCounted(requests[..n], i);
    }
  }

  /** Tokens sent back for request i. */
  function Returns(run: seq<Step>, i: nat): nat {
    if run == [] then 0
    else (if run[0] == PlainReturns(i) || run[0] == SendToken(i) then 1 else 0) + Returns(run[1..], i)
  }

  function Acquires(run: seq<Step>, i: nat): nat {
    if run == [] then 0 else (if run[0] == Acquire(i) then 1 else 0) + Acquires(run[1..], i)
  }

  /** Slots that request i holds: none before it has arrived. */
  function Holds(s: State, i: nat): nat {
    if i < |s.requests| && HoldsSlot(s.requests[i]) then 1 else 0
  }

  /** Slots that request i ever got. */
  function Got(s: State, i: nat): nat {
    if i < |s.requests| && !s.requests[i].Arrived? && !s.requests[i].Rejected? then 1 else 0
  }

  lemma StepAccounts(s: State, step: Step, i: nat)
    requires Inv(s) && Enabled(s, step)
    ensures var t := Apply(s, step);
            && Got(t, i) == Got(s, i) + (if step == Acquire(i) then 1 else 0)
            && Holds(t, i) == Holds(s, i) + (if step == Acquire(i) then 1 else 0)
                              - (if step == PlainReturns(i) || step == SendToken(i) then 1 else 0)
  {
    if i < |s.requests| {
      assert RequestInv(s.requests[i]);
    }
  }

  lemma {:induction false} RunAccounts(s: State, run: seq<Step>, i: nat)
    requires Inv(s) && Runnable(s, run)
    ensures Got(After(s, run), i) == Got(s, i) + Acquires(run, i)
    ensures Holds(After(s, run), i) == Holds(s, i) + Acquires(run, i) - Returns(run, i)
    decreases |run|
  {
    if run != [] {
      StepInv(s, run[0]);
      StepAccounts(s, run[0], i);
      RunAccounts(Apply(s, run[0]), run[1..], i);
    }
  }

  /** Over every run, a request that was served took one slot and any other took none;
      and the slot is either still held or was returned once, although two goroutines
      may try: once the plain request is done, or either end of the tunnel is. */
  lemma ReturnedExactlyOnce(capacity: nat, run: seq<Step>, i: nat)
    requires Runnable(Filled(capacity), run)
    ensures var s := After(Filled(capacity), run);
            && Acquires(run, i) == Got(s, i)
            && Returns(run, i) + Holds(s, i) == Got(s, i)
            && (i < |s.requests| && s.requests[i].PlainDone? ==> Returns(run, i) == 1)
            && (i < |s.requests| && s.requests[i].Tunnel?
                && (s.requests[i].handler.Returned? || s.requests[i].relay.Ended?)
                ==> Returns(run, i) == 1)
  {
    RunInv(Filled(capacity), run);
    RunAccounts(Filled(capacity), run, i);
    var s := After(Filled(capacity), run);
    if i < |s.requests| {
      assert RequestInv(s.requests[i]);
    }
  }

  /** The documented promise is that a tunnel occupies its slot for as long as it
      lives. It does exactly until its handler has returned, because the handler's
      own deferred release gets there first. */
  lemma LiveTunnelHoldsSlotIff(capacity: nat, run: seq<Step>, i: nat)
    requires Runnable(Filled(capacity), run)
    requires i < |After(Filled(capacity), run).requests|
    requires var r := After(Filled(capacity), run).requests[i]; r.Tunnel? && r.relay.Live?
    ensures var r := After(Filled(capacity), run).requests[i];
            HoldsSlot(r) <==> !r.handler.Returned?
  {
    RunInv(Filled(capacity), run);
    assert RequestInv(After(Filled(capacity), run).requests[i]);
  }

  /** So the cap does not bound tunnels: any number can be live with every slot free. */
  lemma {:induction false} AnyNumberOfTunnels(capacity: nat, n: nat) returns (run: seq<Step>)
    requires capacity > 0
    ensures Runnable(Filled(capacity), run)
    ensures var s := After(Filled(capacity), run);
            && s.tokens == capacity == s.capacity && |s.requests| == n
            && forall i | 0 <= i < n :: s.requests[i] == Tunnel(Returned, Live, Used)
  {
    run := [];
    if n > 0 {
      run := AnyNumberOfTunnels(capacity, n - 1);
      var i := n - 1;
      run := Then(capacity, run, Arrive(true));
      run := Then(capacity, run, Acquire(i));
      run := Then(capacity, run, Splice(i));
      run := Then(capacity, run, EnterOnce(i, true));
      run := Then(capacity, run, SendToken(i));
    }
  }

  lemma Then(capacity: nat, run: seq<Step>, step: Step) returns (more: seq<Step>)
    requires Runnable(Filled(capacity), run) && Enabled(After(Filled(capacity), run), step)
    ensures Runnable(Filled(capacity), more)
    ensures After(Filled(capacity), more) == Apply(After(Filled(capacity), run), step)
  {
    more := run + [step];
    Append(Filled(capacity), run, step);
  }

  lemma {:induction false} Append(s: State, run: seq<Step>, step: Step)
    requires Runnable(s, run) && Enabled(After(s, run), step)
    ensures Runnable(s, run + [step]) && After(s, run + [step]) == Apply(After(s, run), step)
    decreases |run|
  {
    if run == [] {
      assert run + [step] == [step];
      assert [step][1..] == [];
    } else {
      Append(Apply(s, run[0]), run[1..], step);
      assert (run + [step])[1..] == run[1..] + [step];
    }
  }
}

// dialSocksTimeout: the dial goroutine, the caller's select, and the goroutine that
// closes a connection nobody is waiting for any more.
module BoundedDial {

  datatype Result = Result(conn: bool, err: bool)

  datatype Buffer = Empty | Full(r: Result)

  datatype Caller = Selecting | GotResult(r: Result) | TimedOut

  datatype Drainer = NoDrainer | Draining | Drained(closed: bool)

  /** `produced` is what the dial came to, once it did. */
  datatype State = State(produced: Buffer, channel: Buffer, timer: bool, caller: Caller, drainer: Drainer)

  datatype Step = DialReturns(r: Result) | TimerFires | CallerReceives | CallerTimesOut | DrainerReceives

  const START := State(Empty, Empty, false, Selecting, NoDrainer)

  predicate Enabled(s: State, step: Step) {
    match step
    case DialReturns(_) => s.produced.Empty?
    case TimerFires => !s.timer
    case CallerReceives => s.caller.Selecting? && s.channel.Full?
    case CallerTimesOut => s.caller.Selecting? && s.timer
    case DrainerReceives => s.drainer.Draining? && s.channel.Full?
  }

  function Apply(s: State, step: Step): State
    requires Enabled(s, step)
  {
    match step
    case DialReturns(r) => s.(produced := Full(r), channel := Full(r))
    case TimerFires => s.(timer := true)
    case CallerReceives => s.(channel := Empty, caller := GotResult(s.channel.r))
    case CallerTimesOut => s.(caller := TimedOut, drainer := Draining)
    case DrainerReceives => s.(channel := Empty, drainer := Drained(s.channel.r.conn))
  }

  /** Where the one connection is. */
  predicate InBuffer(s: State) { s.channel.Full? && s.channel.r.conn }
  predicate WithCaller(s: State) { s.caller.GotResult? && s.caller.r.conn }
  predicate Closed(s: State) { s.drainer.Drained? && s.drainer.closed }

  ghost predicate Inv(s: State) {
    && (s.produced.Empty? ==> s.channel.Empty? && !s.caller.GotResult? && !s.drainer.Drained?)
    && (s.channel.Full? ==> s.channel == s.produced && !s.caller.GotResult? && !s.drainer.Drained?)
    && (s.produced.Full? && s.channel.Empty? ==> s.caller.GotResult? || s.drainer.Drained?)
    && (s.caller.GotResult? ==> Full(s.caller.r) == s.produced && s.drainer.NoDrainer?)
    && (s.drainer.Drained? ==> s.produced.Full? && s.drainer.closed == s.produced.r.conn)
    && (s.caller.TimedOut? <==> !s.drainer.NoDrainer?)
  }

  predicate Runnable(s: State, run: seq<Step>)
    decreases |run|
  {
    run == [] || (Enabled(s, run[0]) && Runnable(Apply(s, run[0]), run[1..]))
  }

  function After(s: State, run: seq<Step>): State
    requires Runnable(s, run)
    decreases |run|
  {
    if run == [] then s else After(Apply(s, run[0]), run[1..])
  }

  lemma {:induction false} RunInv(s: State, run: seq<Step>)
    requires Inv(s) && Runnable(s, run)
    ensures Inv(After(s, run))
    decreases |run|
  {
    if run != [] {
      RunInv(Apply(s, run[0]), run[1..]);
    }
  }

  /** A connection the dial opens is always in exactly one place: in the buffer,
      with the caller, or closed. When nothing can move any more it is with the
      caller or closed, never both and never neither; and the dial goroutine
      always finds the buffer empty, so it never blocks. */
  lemma ConnectionIsNeverLost(run: seq<Step>)
    requires Runnable(START, run)
    ensures var s := After(START, run);
            && (s.produced.Full? && s.produced.r.conn ==>
                  && (InBuffer(s) || WithCaller(s) || Closed(s))
                  && !(InBuffer(s) && WithCaller(s)) && !(InBuffer(s) && Closed(s)) && !(WithCaller(s) && Closed(s)))
            && (s.produced.Empty? || !s.produced.r.conn ==> !InBuffer(s) && !WithCaller(s) && !Closed(s))
            && (s.produced.Empty? ==> s.channel.Empty?)
            && (s.produced.Full? && !Enabled(s, CallerReceives) && !Enabled(s, CallerTimesOut)
                && !Enabled(s, DrainerReceives)
                ==> !InBuffer(s) && (s.caller.GotResult? || s.drainer.Drained?))
            && (s.caller.TimedOut? && s.produced.Full? && s.produced.r.conn ==>
                Closed(s) || Enabled(s, DrainerReceives))
  {
    RunInv(START, run);
  }
}
