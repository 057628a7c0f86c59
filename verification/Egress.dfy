// The passive health registry (v2proxy/httpproxy.go egressNotes) and the
// staleness clock of the serving-socket guard (v2proxy/selector.go servingClients).
// Times are milliseconds on one monotone clock.

module Egress {
  import opened Pool

  const EGRESS_GRACE := 90_000
  const SERVING_SOCKET_UNPROVEN_GRACE := 600_000

  // ---- bytes that flowed ----

  class EgressNotes {
    var lastOK: map<int, nat>

    constructor ()
      ensures lastOK == LastOK([])
    {
      lastOK := map[];
    }

    method NoteEgress(port: int, now: nat)
      modifies this
      ensures lastOK == Noted(old(lastOK), Note(port, now))
    {
      if port <= 0 {
        return;
      }
      lastOK := lastOK[port := now];
    }

    method EgressActive(ports: seq<int>, grace: nat, now: nat) returns (active: bool)
      ensures active <==> Active(lastOK, ports, grace, now)
    {
      for i := 0 to |ports|
        invariant !Active(lastOK, ports[..i], grace, now)
      {
        var p := ports[i];
        if p in lastOK && lastOK[p] > now - grace {
          assert p in ports;
          return true;
        }
        assert ports[..i + 1] == ports[..i] + [ports[i]];
      }
      assert ports[..|ports|] == ports;
      return false;
    }
  }

  datatype Note = Note(port: int, at: nat)

  function Noted(lastOK: map<int, nat>, n: Note): map<int, nat> {
    if n.port <= 0 then lastOK else lastOK[n.port := n.at]
  }

  function LastOK(notes: seq<Note>): map<int, nat> {
    if notes == [] then map[] else Noted(LastOK(notes[..|notes| - 1]), notes[|notes| - 1])
  }

  predicate Active(lastOK: map<int, nat>, ports: seq<int>, grace: nat, now: nat) {
    exists p :: p in ports && p in lastOK && lastOK[p] > now - grace
  }

  predicate InOrder(notes: seq<Note>) {
    forall i, j | 0 <= i < j < |notes| :: notes[i].at <= notes[j].at
  }

  lemma {:induction false} LastOKIsLatest(notes: seq<Note>)
    requires InOrder(notes)
    ensures forall p | p in LastOK(notes) :: p > 0 && Note(p, LastOK(notes)[p]) in notes
    ensures forall i | 0 <= i < |notes| && notes[i].port > 0 ::
              notes[i].port in LastOK(notes) && notes[i].at <= LastOK(notes)[notes[i].port]
  {
    if notes != [] {
      var init, last := notes[..|notes| - 1], notes[|notes| - 1];
      LastOKIsLatest(init);
      forall p | p in LastOK(notes)
        ensures p > 0 && Note(p, LastOK(notes)[p]) in notes
      {
        if p in LastOK(init) && LastOK(notes)[p] == LastOK(init)[p] {
          assert Note(p, LastOK(init)[p]) in init;
        } else {
          assert Note(p, LastOK(notes)[p]) == last;
        }
      }
      forall i | 0 <= i < |notes| && notes[i].port > 0
        ensures notes[i].port in LastOK(notes) && notes[i].at <= LastOK(notes)[notes[i].port]
      {
        assert notes[i].at <= last.at;
        if i < |init| {
          assert init[i] == notes[i];
        }
      }
    }
  }

  /** A port set reads as serving exactly when one of its real ports moved bytes
      less than the grace ago; the other notes, and notes for port 0, are nothing to it. */
  lemma ActiveIffRecentFlow(notes: seq<Note>, ports: seq<int>, grace: nat, now: nat)
    requires InOrder(notes)
    ensures Active(LastOK(notes), ports, grace, now)
            <==> exists n | n in notes :: n.port > 0 && n.port in ports && n.at > now - grace
  {
    LastOKIsLatest(notes);
    forall n | n in notes && n.port > 0
      ensures n.port in LastOK(notes) && n.at <= LastOK(notes)[n.port]
    {
      var i :| 0 <= i < |notes| && notes[i] == n;
    }
    if Active(LastOK(notes), ports, grace, now) {
      var p :| p in ports && p in LastOK(notes) && LastOK(notes)[p] > now - grace;
      assert Note(p, LastOK(notes)[p]) in notes;
    }
  }

  // ---- sockets that stand ----

  /** One scan of the socket tables: how many client sockets, and whether that is known. */
  datatype Event = Scan(n: nat, proven: bool, at: nat) | Launch

  /** The clock after one guard call, and the guard's verdict: busy or not. */
  function Guarded(unproven: Option<nat>, n: nat, proven: bool, now: nat): (Option<nat>, bool) {
    if proven then (None, n > 0)
    else if unproven.None? then (Some(now), true)
    else (unproven, now - unproven.value < SERVING_SOCKET_UNPROVEN_GRACE)
  }

  function Clock(h: seq<Event>): Option<nat> {
    if h == [] then None
    else match h[|h| - 1]
      case Launch => None
      case Scan(n, proven, at) => Guarded(Clock(h[..|h| - 1]), n, proven, at).0
  }

  predicate Unknown(e: Event) {
    e.Scan? && !e.proven
  }

  predicate TimesInOrder(h: seq<Event>) {
    forall i, j | 0 <= i < j < |h| && h[i].Scan? && h[j].Scan? :: h[i].at <= h[j].at
  }

  /** Scan i started the blindness that still lasts at the end of h. */
  predicate BlindSince(h: seq<Event>, i: nat) {
    i < |h| && forall k | i <= k < |h| :: Unknown(h[k])
  }

  lemma {:induction false} ClockIsFirstBlindScan(h: seq<Event>)
    requires TimesInOrder(h)
    ensures Clock(h).Some? ==> exists i: nat :: BlindSince(h, i) && h[i].at == Clock(h).value
    ensures forall i: nat | BlindSince(h, i) :: Clock(h).Some? && Clock(h).value <= h[i].at
  {
    if h != [] {
      var init, last := h[..|h| - 1], h[|h| - 1];
      ClockIsFirstBlindScan(init);
      if Unknown(last) {
        if Clock(init).Some? {
          var i: nat :| BlindSince(init, i) && init[i].at == Clock(init).value;
          assert BlindSince(h, i) && h[i].at == Clock(h).value;
        } else {
          assert BlindSince(h, |h| - 1);
        }
        forall i: nat | BlindSince(h, i)
          ensures Clock(h).Some? && Clock(h).value <= h[i].at
        {
          if i < |init| {
            assert BlindSince(init, i) && init[i] == h[i];
          } else if Clock(init).Some? {
            var j: nat :| BlindSince(init, j) && init[j].at == Clock(init).value;
            assert h[j].at <= h[i].at;
          }
        }
      } else {
        forall i: nat
          ensures !BlindSince(h, i)
        {
          assert i < |h| ==> i <= |h| - 1 < |h|;
        }
      }
    }
  }

  /** Over every sequence of scans and child launches, the guard says "not busy"
      exactly on a scan that proves the port empty, or on an unknown scan that comes
      at least the grace after an earlier unknown one with nothing but unknown scans
      between: a proven scan or a launch starts the wait over. */
  lemma NotBusyIff(h: seq<Event>, n: nat, proven: bool, now: nat)
    requires TimesInOrder(h + [Scan(n, proven, now)])
    ensures !Guarded(Clock(h), n, proven, now).1
            <==> if proven then n == 0
                 else exists i: nat :: BlindSince(h, i) && h[i].at + SERVING_SOCKET_UNPROVEN_GRACE <= now
  {
    var e := Scan(n, proven, now);
    forall i, j | 0 <= i < j < |h| && h[i].Scan? && h[j].Scan?
      ensures h[i].at <= h[j].at
    {
      assert (h + [e])[i] == h[i] && (h + [e])[j] == h[j];
    }
    ClockIsFirstBlindScan(h);
  }
}
