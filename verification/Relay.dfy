// The two relay loops of one tunnel (v2proxy/httpproxy.go relayWithIdle), which
// share the deadlines of both connections, and the body copy of a plain exchange.
// Loop i reads connection i and writes connection 1 - i.

module Relay {
  import opened Pool

  type Bytes = seq<bv8>

  const RELAY_BUF_SIZE := 32 * 1024

  datatype End = EOF | Reset | Timeout | WriteFailed(timeout: bool)

  datatype Phase =
    | Starting                                // has not armed yet
    | Reading
    | Writing(chunk: Bytes, end: Option<End>) // a read returned this chunk, and maybe its last error
    | HopDone                                 // wrote it, has not armed yet
    | Ending(why: End)                        // left the loop, has not closed yet
    | Gone(why: End)

  /** Per loop: where it is, what it has read, what reached the other side, and when
      it last completed a hop. */
  datatype Loop = Loop(phase: Phase, read: Bytes, written: Bytes, hop: Option<nat>)

  datatype State = State(now: nat, loops: seq<Loop>, deadlines: seq<Option<nat>>, closed: bool, lastArm: Option<nat>)

  datatype Step =
    | Tick(now: nat)
    | Arm(i: nat)
    | Read(i: nat, chunk: Bytes, end: Option<End>)
    | Write(i: nat, n: nat, failed: Option<bool>)   // failed: was it the deadline?
    | Close(i: nat)

  function Start(now: nat): State {
    State(now, [Loop(Starting, [], [], None), Loop(Starting, [], [], None)], [None, None], false, None)
  }

  /** A deadline that has passed. */
  predicate Passed(d: Option<nat>, now: nat) {
    d.Some? && d.value <= now
  }

  predicate Enabled(s: State, idle: nat, step: Step)
    requires |s.loops| == |s.deadlines| == 2
  {
    match step
    case Tick(now) => now >= s.now
    case Arm(i) => i < 2 && (s.loops[i].phase.Starting? || s.loops[i].phase.HopDone?)
    case Read(i, chunk, end) =>
      i < 2 && s.loops[i].phase.Reading? && |chunk| <= RELAY_BUF_SIZE
      && (s.closed ==> chunk == [] && end == Some(Reset))
      && (end == Some(Timeout) ==> chunk == [] && Passed(s.deadlines[i], s.now))
      && (end.Some? ==> !end.value.WriteFailed?)
    case Write(i, n, failed) =>
      i < 2 && s.loops[i].phase.Writing? && n <= |s.loops[i].phase.chunk|
      && (failed.None? ==> n == |s.loops[i].phase.chunk| && !s.closed)
      && (failed == Some(true) ==> Passed(s.deadlines[1 - i], s.now))
    case Close(i) => i < 2 && s.loops[i].phase.Ending?
  }

  function Apply(s: State, idle: nat, step: Step): State
    requires |s.loops| == |s.deadlines| == 2
    requires Enabled(s, idle, step)
  {
    match step
    case Tick(now) => s.(now := now)
    case Arm(i) =>
      var d := Some(s.now + idle);
      s.(loops := s.loops[i := s.loops[i].(phase := Reading)], deadlines := [d, d], lastArm := Some(s.now))
    case Read(i, chunk, end) =>
      var next := if chunk != [] then Writing(chunk, end) else if end.Some? then Ending(end.value) else HopDone;
      s.(loops := s.loops[i := s.loops[i].(phase := next, read := s.loops[i].read + chunk)])
    case Write(i, n, failed) =>
      var l := s.loops[i];
      var l' := l.(written := l.written + l.phase.chunk[..n]);
      s.(loops := s.loops[i :=
           if failed.Some? then l'.(phase := Ending(WriteFailed(failed.value)))
           else if l.phase.end.Some? then l'.(phase := Ending(l.phase.end.value), hop := Some(s.now))
           else l'.(phase := HopDone, hop := Some(s.now))])
    case Close(i) => s.(loops := s.loops[i := s.loops[i].(phase := Gone(s.loops[i].phase.why))], closed := true)
  }

  // ---- the inductive invariant ----

  /** Why a loop left, if it has. */
  function Left(l: Loop): Option<End> {
    match l.phase
    case Ending(why) => Some(why)
    case Gone(why) => Some(why)
    case _ => None
  }

  ghost predicate LoopInv(l: Loop, lastArm: Option<nat>, now: nat) {
    // What was read and not yet written is the chunk in hand, or the tail of one whose write failed.
    && (l.phase.Writing? ==> l.read == l.written + l.phase.chunk && !(l.phase.end == Some(Timeout)))
    && (Left(l).Some? && Left(l).value.WriteFailed? ==> l.written <= l.read)
    && (!l.phase.Writing? && !(Left(l).Some? && Left(l).value.WriteFailed?) ==> l.written == l.read)
    // A hop that is over has been followed by an arming, unless its loop is just about to arm.
    && (l.hop.Some? ==> l.hop.value <= now)
    && (l.hop.Some? && !l.phase.HopDone? && Left(l).None? ==> lastArm.Some? && l.hop.value <= lastArm.value)
    && (!l.phase.Starting? ==> lastArm.Some?)
  }

  ghost predicate Inv(s: State, idle: nat) {
    && |s.loops| == |s.deadlines| == 2
    && (forall i | 0 <= i < 2 :: LoopInv(s.loops[i], s.lastArm, s.now))
    && (forall i | 0 <= i < 2 :: s.deadlines[i] == if s.lastArm.Some? then Some(s.lastArm.value + idle) else None)
    && (s.lastArm.Some? ==> s.lastArm.value <= s.now)
  }

  lemma StepInv(s: State, idle: nat, step: Step)
    requires Inv(s, idle) && Enabled(s, idle, step)
    ensures Inv(Apply(s, idle, step), idle)
  {
    var t := Apply(s, idle, step);
    if !step.Tick? {
      assert LoopInv(s.loops[step.i], s.lastArm, s.now);
      assert LoopInv(s.loops[1 - step.i], s.lastArm, s.now);
      assert t.loops[1 - step.i] == s.loops[1 - step.i];
      if step.Write? {
        var chunk := s.loops[step.i].phase.chunk;
        assert chunk == chunk[..step.n] + chunk[step.n..];
      }
    }
  }

  predicate Runnable(s: State, idle: nat, run: seq<Step>)
    decreases |run|
  {
    |s.loops| == |s.deadlines| == 2
    && (run == [] || (Enabled(s, idle, run[0]) && Runnable(Apply(s, idle, run[0]), idle, run[1..])))
  }

  function After(s: State, idle: nat, run: seq<Step>): State
    requires Runnable(s, idle, run)
    decreases |run|
  {
    if run == [] then s else After(Apply(s, idle, run[0]), idle, run[1..])
  }

  lemma {:induction false} RunInv(s: State, idle: nat, run: seq<Step>)
    requires Inv(s, idle) && Runnable(s, idle, run)
    ensures Inv(After(s, idle, run), idle)
    decreases |run|
  {
    if run != [] {
      StepInv(s, idle, run[0]);
      RunInv(Apply(s, idle, run[0]), idle, run[1..]);
    }
  }

  /** Under every interleaving of the two loops, and in both directions: what was
      written is a prefix of what was read; everything read has been written before
      the next read; a stream that ended on its own side, rather than in a failed
      write, was forwarded to the last byte; and nothing is read once a loop has closed. */
  lemma StreamsAreForwarded(start: nat, idle: nat, run: seq<Step>, i: nat)
    requires Runnable(Start(start), idle, run) && i < 2
    ensures var s := After(Start(start), idle, run);
            && |s.loops| == |s.deadlines| == 2
            && s.loops[i].written <= s.loops[i].read
            && (s.loops[i].phase.Reading? ==> s.loops[i].written == s.loops[i].read)
            && (Left(s.loops[i]).Some? && !Left(s.loops[i]).value.WriteFailed? ==>
                s.loops[i].written == s.loops[i].read)
            && (s.closed ==> forall chunk, end | Enabled(s, idle, Read(i, chunk, end)) :: chunk == [] && end.Some?)
  {
    RunInv(Start(start), idle, run);
    assert LoopInv(After(Start(start), idle, run).loops[i], After(Start(start), idle, run).lastArm,
                   After(Start(start), idle, run).now);
  }

  /** The deadline cuts a tunnel, on a read or on a write, only when neither loop has
      armed for a full idle window; so neither has completed a hop for that long,
      unless it is between that hop and its own arming or has already left. */
  lemma IdleCutMeansSilence(start: nat, idle: nat, run: seq<Step>, cut: Step)
    requires Runnable(Start(start), idle, run)
    requires |After(Start(start), idle, run).loops| == |After(Start(start), idle, run).deadlines| == 2
    requires Enabled(After(Start(start), idle, run), idle, cut)
    requires (cut.Read? && cut.end == Some(Timeout)) || (cut.Write? && cut.failed == Some(true))
    ensures var s := After(Start(start), idle, run);
            && s.lastArm.Some? && s.lastArm.value + idle <= s.now
            && forall j | 0 <= j < 2 && s.loops[j].hop.Some? ::
                 s.loops[j].hop.value + idle <= s.now || s.loops[j].phase.HopDone? || Left(s.loops[j]).Some?
  {
    RunInv(Start(start), idle, run);
    var s := After(Start(start), idle, run);
    assert LoopInv(s.loops[0], s.lastArm, s.now) && LoopInv(s.loops[1], s.lastArm, s.now);
  }

  // ---- the body of a plain exchange ----

  /** One read of the response body: data, maybe the last error, and when it returned. */
  datatype Piece = Piece(data: Bytes, end: Option<End>, at: nat)

  function Data(pieces: seq<Piece>): Bytes {
    if pieces == [] then [] else Data(pieces[..|pieces| - 1]) + pieces[|pieces| - 1].data
  }

  class Connection {
    var deadline: nat
  }

  /** What the client's side made of one write: how much it took, and whether it failed.
      A write that takes less than it was given fails; one that takes it all may fail too. */
  datatype Took = Took(n: nat, err: bool)

  predicate Writer(pieces: seq<Piece>, writes: seq<Took>) {
    |writes| == |pieces|
    && forall k | 0 <= k < |pieces| ::
         writes[k].n <= |pieces[k].data| && (writes[k].n < |pieces[k].data| ==> writes[k].err)
  }

  predicate Delivered(p: Piece, w: Took) {
    p.data != [] && !w.err
  }

  /** Copies until the body ends or a write fails. The deadline moves on with every
      chunk that was delivered, so only silence can cut the copy. */
  method CopyBodyIdle(pieces: seq<Piece>, writes: seq<Took>, conn: Connection, idle: nat)
    returns (total: nat, failed: bool, written: Bytes, ghost taken: nat)
    requires Writer(pieces, writes) && exists k :: 0 <= k < |pieces| && pieces[k].end.Some?
    modifies conn
    ensures 0 < taken <= |pieces| && written <= Data(pieces[..taken]) && total == |written|
    // It stops at the first end or failed write, and fails unless that is the plain end.
    ensures forall k | 0 <= k < taken - 1 :: pieces[k].end.None? && (pieces[k].data == [] || !writes[k].err)
    ensures !failed ==> written == Data(pieces[..taken]) && pieces[taken - 1].end == Some(EOF)
    ensures failed <==> (pieces[taken - 1].data != [] && writes[taken - 1].err) || pieces[taken - 1].end != Some(EOF)
    ensures written == Data(pieces[..taken - 1]) + pieces[taken - 1].data[..writes[taken - 1].n]
    ensures conn.deadline == old(conn.deadline)
            || exists k :: 0 <= k < taken && Delivered(pieces[k], writes[k]) && conn.deadline == pieces[k].at + idle
                           && forall j | k < j < taken :: !Delivered(pieces[j], writes[j])
  {
    total, failed, written, taken := 0, false, [], 0;
    var i := 0;
    while i < |pieces|
      invariant 0 <= i <= |pieces| && taken == i
      invariant written == Data(pieces[..i]) && total == |written|
      invariant forall k | 0 <= k < i :: pieces[k].end.None? && (pieces[k].data == [] || !writes[k].err)
      invariant conn.deadline == old(conn.deadline)
                || exists k :: 0 <= k < i && Delivered(pieces[k], writes[k]) && conn.deadline == pieces[k].at + idle
                               && forall j | k < j < i :: !Delivered(pieces[j], writes[j])
    {
      var p := pieces[i];
      assert pieces[..i + 1][..i] == pieces[..i];
      taken := i + 1;
      if |p.data| > 0 {
        var w := writes[i];
        written := written + p.data[..w.n];
        total := total + w.n;
        if w.err {
          failed := true;
          return;
        }
        assert p.data[..w.n] == p.data;
        conn.deadline := p.at + idle;
      } else {
        assert written == Data(pieces[..i + 1]);
        assert p.data[..writes[i].n] == [];
      }
      if p.end.Some? {
        failed := p.end.value != EOF;
        return;
      }
      i := i + 1;
    }
  }
}
