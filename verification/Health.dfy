// Probe verdicts and the n-way probe race (v2proxy/healthcheck.go).

module Health {

  const PROBE_URL := "https://www.gstatic.com/generate_204"
  const QUICK_FALLBACK_URL := "https://cp.cloudflare.com/generate_204"
  const TELEGRAM_PROBE_URL := "https://api.telegram.org/"

  /** What one HTTP exchange through the tunnel did. */
  datatype Exchange = TransportError(latency: nat) | Answered(status: nat, latency: nat)

  datatype HealthResult = HealthResult(working: bool, error: bool, status: nat, latency: nat, url: string)

  function TestSingleURL(url: string, e: Exchange): HealthResult {
    match e
    case TransportError(latency) => HealthResult(false, true, 0, latency, url)
    case Answered(status, latency) => HealthResult(200 <= status < 400, false, status, latency, url)
  }

  predicate ProbeInconclusive(r: HealthResult) {
    r.status == 429 || r.status == 403
  }

  datatype Verdict = Adopt | Unproven | Reject

  function ClassifyProbe(r: HealthResult): Verdict {
    if r.working then Adopt else if ProbeInconclusive(r) then Unproven else Reject
  }

  datatype Rule = StatusOK | AnyAnswer

  /** One raced target and the rule that grades it: Telegram's leg takes any completed exchange. */
  datatype Leg = Leg(url: string, rule: Rule)

  predicate Accepts(rule: Rule, r: HealthResult) {
    match rule
    case StatusOK => r.working
    case AnyAnswer => !r.error
  }

  /** The deduplicated targets for one probe. No target is raced twice, and a
      lone target is always graded by status. */
  method ProbeLegs(testURL: string, telegramEnabled: bool) returns (legs: seq<Leg>)
    ensures legs != [] && legs[0] == Leg(Primary(testURL), StatusOK)
    ensures forall i, j | 0 <= i < j < |legs| :: legs[i].url != legs[j].url
    ensures forall leg | leg in legs ::
              leg.rule == AnyAnswer <==> leg.url == TELEGRAM_PROBE_URL && Primary(testURL) != TELEGRAM_PROBE_URL
    ensures Targets(legs) == {Primary(testURL), QUICK_FALLBACK_URL}
            + (if telegramEnabled then {TELEGRAM_PROBE_URL} else {})
    ensures RaceReady(legs)
  {
    var primary := Primary(testURL);
    legs := [Leg(primary, StatusOK)];
    if QUICK_FALLBACK_URL != primary {
      legs := legs + [Leg(QUICK_FALLBACK_URL, StatusOK)];
    }
    assert TELEGRAM_PROBE_URL != QUICK_FALLBACK_URL by {
      assert TELEGRAM_PROBE_URL[8] != QUICK_FALLBACK_URL[8];
    }
    if telegramEnabled && TELEGRAM_PROBE_URL !in Targets(legs) {
      assert legs[0].url != TELEGRAM_PROBE_URL;
      legs := legs + [Leg(TELEGRAM_PROBE_URL, AnyAnswer)];
    }
  }

  function Targets(legs: seq<Leg>): set<string> {
    set leg | leg in legs :: leg.url
  }

  function Primary(testURL: string): string {
    if testURL != "" then testURL else PROBE_URL
  }

  predicate RaceReady(legs: seq<Leg>) {
    legs != [] && (|legs| == 1 ==> legs[0].rule == StatusOK)
  }

  // ---- the race ----

  /** Every leg answers once, in some order. */
  ghost predicate IsArrivalOrder(n: nat, arrivals: seq<nat>) {
    && |arrivals| == n
    && (forall k | 0 <= k < n :: arrivals[k] < n)
    && (forall i: nat | i < n :: i in arrivals)
  }

  function Results(legs: seq<Leg>, exchanges: seq<Exchange>): (rs: seq<HealthResult>)
    requires |exchanges| == |legs|
    ensures |rs| == |legs|
  {
    seq(|legs|, i requires 0 <= i < |legs| == |exchanges| => TestSingleURL(legs[i].url, exchanges[i]))
  }

  predicate Wins(legs: seq<Leg>, exchanges: seq<Exchange>, i: nat)
    requires |exchanges| == |legs|
  {
    i < |legs| && Accepts(legs[i].rule, Results(legs, exchanges)[i])
  }

  /** Receives outcomes until some leg's own rule accepts one; otherwise the
      first arrival is the answer. */
  method RaceProbe(legs: seq<Leg>, exchanges: seq<Exchange>, arrivals: seq<nat>) returns (r: HealthResult)
    requires |exchanges| == |legs| && IsArrivalOrder(|legs|, arrivals)
    ensures legs == [] ==> !r.working && r.error
    ensures |legs| == 1 ==> r == Results(legs, exchanges)[0]
    ensures |legs| > 1 && (forall k | 0 <= k < |arrivals| :: !Wins(legs, exchanges, arrivals[k])) ==>
              r == Results(legs, exchanges)[arrivals[0]]
    ensures |legs| > 1 ==>
              forall k | 0 <= k < |arrivals| && Wins(legs, exchanges, arrivals[k])
                         && (forall j | 0 <= j < k :: !Wins(legs, exchanges, arrivals[j])) ::
                r == Results(legs, exchanges)[arrivals[k]].(working := true)
  {
    if |legs| == 0 {
      return HealthResult(false, true, 0, 0, "");
    }
    if |legs| == 1 {
      return TestSingleURL(legs[0].url, exchanges[0]);
    }
    var first := TestSingleURL(legs[arrivals[0]].url, exchanges[arrivals[0]]);
    for k := 0 to |arrivals|
      invariant forall j | 0 <= j < k :: !Wins(legs, exchanges, arrivals[j])
    {
      var i := arrivals[k];
      var res := TestSingleURL(legs[i].url, exchanges[i]);
      if Accepts(legs[i].rule, res) {
        assert Wins(legs, exchanges, arrivals[k]);
        return res.(working := true);
      }
    }
    return first;
  }

  /** Any answer the race can give, for some order of arrival. */
  ghost predicate RaceAnswer(legs: seq<Leg>, exchanges: seq<Exchange>, arrivals: seq<nat>, r: HealthResult)
    requires |exchanges| == |legs| && legs != [] && IsArrivalOrder(|legs|, arrivals)
  {
    if |legs| == 1 then r == Results(legs, exchanges)[0]
    else
      || ((forall i | 0 <= i < |legs| :: !Wins(legs, exchanges, i)) && r == Results(legs, exchanges)[arrivals[0]])
      || exists i :: 0 <= i < |legs| && Wins(legs, exchanges, i) && r == Results(legs, exchanges)[i].(working := true)
  }

  /** Whether a raced probe works never depends on who answers first: it works
      exactly when some leg's own rule accepts that leg's exchange. */
  lemma RaceWorksIff(legs: seq<Leg>, exchanges: seq<Exchange>, arrivals: seq<nat>, r: HealthResult)
    requires |exchanges| == |legs| && RaceReady(legs) && IsArrivalOrder(|legs|, arrivals)
    requires RaceAnswer(legs, exchanges, arrivals, r)
    ensures r.working <==> exists i :: 0 <= i < |legs| && Wins(legs, exchanges, i)
  {
    if |legs| == 1 {
      assert Wins(legs, exchanges, 0) <==> r.working;
    } else if forall i | 0 <= i < |legs| :: !Wins(legs, exchanges, i) {
      assert !Wins(legs, exchanges, arrivals[0]);
    }
  }

  /** RaceProbe's contract pins its result to RaceAnswer. */
  method Race(legs: seq<Leg>, exchanges: seq<Exchange>, arrivals: seq<nat>) returns (r: HealthResult)
    requires |exchanges| == |legs| && RaceReady(legs) && IsArrivalOrder(|legs|, arrivals)
    ensures RaceAnswer(legs, exchanges, arrivals, r)
    ensures r.working <==> exists i :: 0 <= i < |legs| && Wins(legs, exchanges, i)
  {
    r := RaceProbe(legs, exchanges, arrivals);
    if |legs| > 1 {
      if k :| 0 <= k < |arrivals| && Wins(legs, exchanges, arrivals[k]) {
        ghost var first := FirstWinner(legs, exchanges, arrivals, k);
        assert Wins(legs, exchanges, arrivals[first]);
      } else {
        forall i | 0 <= i < |legs|
          ensures !Wins(legs, exchanges, i)
        {
          var leg: nat := i;
          assert leg in arrivals;
        }
      }
    }
    RaceWorksIff(legs, exchanges, arrivals, r);
  }

  lemma {:induction false} FirstWinner(legs: seq<Leg>, exchanges: seq<Exchange>, arrivals: seq<nat>, k: nat)
    returns (first: nat)
    requires |exchanges| == |legs| && IsArrivalOrder(|legs|, arrivals)
    requires k < |arrivals| && Wins(legs, exchanges, arrivals[k])
    ensures first <= k && Wins(legs, exchanges, arrivals[first])
    ensures forall j | 0 <= j < first :: !Wins(legs, exchanges, arrivals[j])
  {
    if j :| 0 <= j < k && Wins(legs, exchanges, arrivals[j]) {
      first := FirstWinner(legs, exchanges, arrivals, j);
    } else {
      first := k;
    }
  }

  /** The order in which leg i answers first. */
  function Ahead(n: nat, i: nat): (order: seq<nat>)
    requires i < n
    ensures IsArrivalOrder(n, order) && order[0] == i
  {
    var order := seq(n, k requires 0 <= k < n => if k == 0 then i else if k <= i then k - 1 else k);
    assert forall m: nat | m < n :: m in order by {
      forall m: nat | m < n
        ensures m in order
      {
        assert order[if m == i then 0 else if m < i then m + 1 else m] == m;
      }
    }
    order
  }

  /** A failing race is weaker: whether it counts as a strike (or a rejection) or
      as inconclusive is decided by the first arrival alone. All orders agree
      exactly when some leg wins, or no two legs disagree on it. */
  lemma FailureIsOrderFreeIff(legs: seq<Leg>, exchanges: seq<Exchange>)
    requires |exchanges| == |legs| && |legs| > 1
    ensures (forall a, b, x, y | IsArrivalOrder(|legs|, a) && IsArrivalOrder(|legs|, b)
                                 && RaceAnswer(legs, exchanges, a, x) && RaceAnswer(legs, exchanges, b, y)
               :: ClassifyProbe(x) == ClassifyProbe(y))
            <==>
            || (exists i :: 0 <= i < |legs| && Wins(legs, exchanges, i))
            || (forall i, j | 0 <= i < |legs| && 0 <= j < |legs| ::
                  ProbeInconclusive(Results(legs, exchanges)[i]) == ProbeInconclusive(Results(legs, exchanges)[j]))
  {
    var rs := Results(legs, exchanges);
    if forall i | 0 <= i < |legs| :: !Wins(legs, exchanges, i) {
      forall i | 0 <= i < |legs|
        ensures !rs[i].working
      {
        assert !Wins(legs, exchanges, i);
      }
      if i, j :| 0 <= i < |legs| && 0 <= j < |legs| && ProbeInconclusive(rs[i]) != ProbeInconclusive(rs[j]) {
        assert RaceAnswer(legs, exchanges, Ahead(|legs|, i), rs[i]);
        assert RaceAnswer(legs, exchanges, Ahead(|legs|, j), rs[j]);
        assert ClassifyProbe(rs[i]) != ClassifyProbe(rs[j]);
      }
    }
  }
}
