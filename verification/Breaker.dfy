// The circuit breaker that rests dead subscription sources across refreshes
// (v2proxy/manager.go), and what its automaton does over whole runs.

module Breaker {
  import ProcTable

  const FAIL_THRESHOLD := 3
  const SKIP_CYCLES := 5

  datatype Rest = Awake | Resting(left: int)

  /** What the breaker remembers about one URL. */
  datatype Entry = Entry(fails: nat, rest: Rest)

  const FRESH := Entry(0, Awake)

  class SrcBreaker {
    var fails: map<string, nat>
    var skip: map<string, int>

    constructor ()
      ensures forall url :: At(url) == FRESH
    {
      fails, skip := map[], map[];
    }

    function At(url: string): Entry
      reads this
    {
      Entry(if url in fails then fails[url] else 0,
            if url in skip then Resting(skip[url]) else Awake)
    }

    method Allow(url: string) returns (ok: bool)
      modifies this
      ensures ok <==> Admits(old(At(url)))
      ensures At(url) == if ok then old(At(url)) else CountDown(old(At(url)))
      ensures forall other | other != url :: At(other) == old(At(other))
    {
      if url !in skip || skip[url] <= 0 {
        return true;
      }
      skip := skip[url := skip[url] - 1];
      return false;
    }

    method Note(url: string, ok: bool)
      modifies this
      ensures At(url) == Noted(old(At(url)), ok)
      ensures forall other | other != url :: At(other) == old(At(other))
    {
      if ok {
        fails := fails - {url};
        skip := skip - {url};
        return;
      }
      fails := fails[url := (if url in fails then fails[url] else 0) + 1];
      if fails[url] >= FAIL_THRESHOLD {
        if url !in skip {
          skip := skip[url := SKIP_CYCLES];
        }
      }
    }

    /** The breaker's half of one refresh: ask for every source, as often as it is
        listed, then note each one that was let through. `fetched(url)` says whether
        the fetch worked; blank lines are passed over. */
    method Refresh(urls: seq<string>, fetched: string -> bool) returns (allowed: seq<string>)
      modifies this
      ensures forall url :: multiset(allowed)[url] == LetThrough(old(At(url)), Listed(urls, url))
      ensures forall url ::
                At(url) == Told(Asked(old(At(url)), Listed(urls, url)), LetThrough(old(At(url)), Listed(urls, url)),
                                fetched(url))
    {
      allowed := AskAll(urls);
      NoteAll(allowed, fetched);
    }

    method AskAll(urls: seq<string>) returns (allowed: seq<string>)
      modifies this
      ensures forall url :: multiset(allowed)[url] == LetThrough(old(At(url)), Listed(urls, url))
      ensures forall url :: At(url) == Asked(old(At(url)), Listed(urls, url))
    {
      allowed := [];
      for i := 0 to |urls|
        invariant forall url :: multiset(allowed)[url] == LetThrough(old(At(url)), Listed(urls[..i], url))
        invariant forall url :: At(url) == Asked(old(At(url)), Listed(urls[..i], url))
      {
        ListedSnoc(urls, i);
        if IsBlank(urls[i]) {
          continue;
        }
        AskedOnceMore(old(At(urls[i])), Listed(urls[..i], urls[i]));
        ghost var before := allowed;
        label ask:
        var ok := Allow(urls[i]);
        if ok {
          allowed := allowed + [urls[i]];
        }
        forall url
          ensures At(url) == Asked(old(At(url)), Listed(urls[..i + 1], url))
          ensures multiset(allowed)[url] == LetThrough(old(At(url)), Listed(urls[..i + 1], url))
        {
          if url != urls[i] {
            assert At(url) == old@ask(At(url)) && multiset(allowed)[url] == multiset(before)[url];
          }
        }
      }
      assert urls[..|urls|] == urls;
    }

    method NoteAll(allowed: seq<string>, fetched: string -> bool)
      modifies this
      ensures forall url :: At(url) == Told(old(At(url)), multiset(allowed)[url], fetched(url))
    {
      for i := 0 to |allowed|
        invariant forall url :: At(url) == Told(old(At(url)), multiset(allowed[..i])[url], fetched(url))
      {
        var url := allowed[i];
        CountSnoc(allowed, i);
        ToldOnceMore(old(At(url)), multiset(allowed[..i])[url], fetched(url));
        Note(url, fetched(url));
      }
      assert allowed[..|allowed|] == allowed;
    }
  }

  /** strings.TrimSpace leaves nothing of it. */
  predicate IsBlank(url: string) {
    forall i | 0 <= i < |url| :: ProcTable.IsSpace(url[i])
  }

  /** How often a source is asked for in one refresh. */
  function Listed(urls: seq<string>, url: string): nat {
    if IsBlank(url) then 0 else multiset(urls)[url]
  }

  lemma CountSnoc(urls: seq<string>, i: nat)
    requires i < |urls|
    ensures forall url :: multiset(urls[..i + 1])[url] == multiset(urls[..i])[url] + (if url == urls[i] then 1 else 0)
  {
    assert urls[..i + 1] == urls[..i] + [urls[i]];
  }

  lemma ListedSnoc(urls: seq<string>, i: nat)
    requires i < |urls|
    ensures forall url ::
              Listed(urls[..i + 1], url) == Listed(urls[..i], url) + (if url == urls[i] && !IsBlank(url) then 1 else 0)
  {
    assert urls[..i + 1] == urls[..i] + [urls[i]];
  }

  // ---- one URL, one refresh ----

  /** Asked for n times: every refusal uses up one turn of the rest. */
  function Asked(e: Entry, n: nat): Entry {
    if Admits(e) || n == 0 then e else e.(rest := Resting(if n < e.rest.left then e.rest.left - n else 0))
  }

  lemma AskedOnceMore(e: Entry, n: nat)
    ensures Asked(e, n + 1) == if Admits(Asked(e, n)) then Asked(e, n) else CountDown(Asked(e, n))
    ensures LetThrough(e, n + 1) == LetThrough(e, n) + if Admits(Asked(e, n)) then 1 else 0
  {
  }

  /** How many of n askings get through. */
  function LetThrough(e: Entry, n: nat): nat {
    if Admits(e) then n else if n < e.rest.left then 0 else n - e.rest.left
  }

  /** Told the same outcome m times. */
  function Told(e: Entry, m: nat, ok: bool): Entry {
    if m == 0 then e else Noted(Told(e, m - 1, ok), ok)
  }

  predicate Admits(e: Entry) {
    e.rest.Awake? || e.rest.left <= 0
  }

  function CountDown(e: Entry): Entry
    requires !Admits(e)
  {
    e.(rest := Resting(e.rest.left - 1))
  }

  function Noted(e: Entry, ok: bool): Entry {
    if ok then FRESH
    else if e.fails + 1 >= FAIL_THRESHOLD && e.rest.Awake? then Entry(e.fails + 1, Resting(SKIP_CYCLES))
    else e.(fails := e.fails + 1)
  }

  /** The rule the documentation describes: a failed probe after a rest re-arms it. */
  function NotedAsDocumented(e: Entry, ok: bool): Entry {
    if ok then FRESH
    else if e.fails + 1 >= FAIL_THRESHOLD && Admits(e) then Entry(e.fails + 1, Resting(SKIP_CYCLES))
    else e.(fails := e.fails + 1)
  }

  datatype Verdict = Refused | Worked | Failed

  function Round(e: Entry, ok: bool): (Verdict, Entry) {
    if !Admits(e) then (Refused, CountDown(e))
    else (if ok then Worked else Failed, Noted(e, ok))
  }

  lemma ToldOnceMore(e: Entry, m: nat, ok: bool)
    ensures Told(e, m + 1, ok) == Noted(Told(e, m, ok), ok)
  {
  }

  /** A source that is listed once plays exactly one round a refresh. */
  lemma OnceIsARound(e: Entry, ok: bool)
    ensures Told(Asked(e, 1), LetThrough(e, 1), ok) == Round(e, ok).1
    ensures LetThrough(e, 1) == 0 <==> Round(e, ok).0.Refused?
  {
    assert Told(e, 1, ok) == Noted(Told(e, 0, ok), ok);
  }

  function RoundAsDocumented(e: Entry, ok: bool): (Verdict, Entry) {
    if !Admits(e) then (Refused, CountDown(e))
    else (if ok then Worked else Failed, NotedAsDocumented(e, ok))
  }

  // ---- whole runs ----

  datatype Play = Play(verdicts: seq<Verdict>, entry: Entry)

  /** A run over the refreshes of one URL; outcomes[n] is what a fetch in refresh n would do. */
  function Run(outcomes: seq<bool>): (p: Play)
    ensures |p.verdicts| == |outcomes|
  {
    if outcomes == [] then Play([], FRESH)
    else
      var before := Run(outcomes[..|outcomes| - 1]);
      var (v, e) := Round(before.entry, outcomes[|outcomes| - 1]);
      Play(before.verdicts + [v], e)
  }

  function RunAsDocumented(outcomes: seq<bool>): (p: Play)
    ensures |p.verdicts| == |outcomes|
  {
    if outcomes == [] then Play([], FRESH)
    else
      var before := RunAsDocumented(outcomes[..|outcomes| - 1]);
      var (v, e) := RoundAsDocumented(before.entry, outcomes[|outcomes| - 1]);
      Play(before.verdicts + [v], e)
  }

  /** Failures since the last success. */
  function Fails(h: seq<Verdict>): nat {
    if h == [] || h[|h| - 1].Worked? then 0
    else Fails(h[..|h| - 1]) + (if h[|h| - 1].Failed? then 1 else 0)
  }

  /** Refusals since the last success. */
  function Refusals(h: seq<Verdict>): nat {
    if h == [] || h[|h| - 1].Worked? then 0
    else Refusals(h[..|h| - 1]) + (if h[|h| - 1].Refused? then 1 else 0)
  }

  lemma Snoc(h: seq<Verdict>, v: Verdict)
    ensures (h + [v])[..|h|] == h
  {
  }

  /** The breaker's memory is the fold of the URL's history. */
  lemma {:induction false} EntryIsHistory(outcomes: seq<bool>)
    ensures var p := Run(outcomes);
            && p.entry.fails == Fails(p.verdicts)
            && Refusals(p.verdicts) <= SKIP_CYCLES
            && (Fails(p.verdicts) < FAIL_THRESHOLD ==> Refusals(p.verdicts) == 0)
            && (Fails(p.verdicts) > FAIL_THRESHOLD ==> Refusals(p.verdicts) == SKIP_CYCLES)
            && p.entry.rest == (if Fails(p.verdicts) < FAIL_THRESHOLD then Awake
                                else Resting(SKIP_CYCLES - Refusals(p.verdicts)))
  {
    if outcomes != [] {
      var init := outcomes[..|outcomes| - 1];
      EntryIsHistory(init);
      Snoc(Run(init).verdicts, Round(Run(init).entry, outcomes[|outcomes| - 1]).0);
    }
  }

  /** A refresh is refused exactly while the source has failed three times and
      rested fewer than five, both counted since its last success. So there is
      no refusal before three failures, then exactly five, then none until a success. */
  lemma {:induction false} RefusedIff(outcomes: seq<bool>, next: bool)
    ensures var h := Run(outcomes).verdicts;
            && Run(outcomes + [next]).verdicts[..|outcomes|] == h
            && (Run(outcomes + [next]).verdicts[|outcomes|] == Refused
                <==> Fails(h) >= FAIL_THRESHOLD && Refusals(h) < SKIP_CYCLES)
            && Refusals(Run(outcomes + [next]).verdicts) <= SKIP_CYCLES
  {
    EntryIsHistory(outcomes);
    EntryIsHistory(outcomes + [next]);
    assert (outcomes + [next])[..|outcomes|] == outcomes;
  }

  /** The third failure in a row starts a rest of exactly five refreshes,
      whatever the source would have answered meanwhile. */
  lemma {:induction false} RestLastsFive(outcomes: seq<bool>, more: seq<bool>)
    requires Fails(Run(outcomes).verdicts) == FAIL_THRESHOLD && Refusals(Run(outcomes).verdicts) == 0
    requires |more| <= SKIP_CYCLES
    ensures var p := Run(outcomes + more);
            && p.verdicts == Run(outcomes).verdicts + seq(|more|, _ => Refused)
            && p.entry == Entry(FAIL_THRESHOLD, Resting(SKIP_CYCLES - |more|))
  {
    if more == [] {
      assert outcomes + more == outcomes;
      EntryIsHistory(outcomes);
    } else {
      var init := more[..|more| - 1];
      RestLastsFive(outcomes, init);
      assert (outcomes + more)[..|outcomes + more| - 1] == outcomes + init;
    }
  }

  /** k refreshes of a source that is listed n times and fails whenever it is fetched. */
  function DeadFor(e: Entry, n: nat, k: nat): Entry {
    if k == 0 then e
    else var before := DeadFor(e, n, k - 1); Told(Asked(before, n), LetThrough(before, n), false)
  }

  /** A rest is counted in askings, not in refreshes: a source listed n times uses it up
      n at a time. So it is refused altogether in the k-th refresh of the rest exactly
      while k * n askings fit into the rest. */
  lemma {:induction false} CopiesShareTheRest(e: Entry, n: nat, k: nat)
    requires e.rest == Resting(SKIP_CYCLES) && n > 0 && n * k <= SKIP_CYCLES
    ensures DeadFor(e, n, k) == e.(rest := Resting(SKIP_CYCLES - n * k))
    ensures LetThrough(DeadFor(e, n, k), n) == 0 <==> n * (k + 1) <= SKIP_CYCLES
  {
    if k > 0 {
      assert n * (k - 1) == n * k - n;
      CopiesShareTheRest(e, n, k - 1);
      var before := DeadFor(e, n, k - 1);
      assert Told(Asked(before, n), 0, false) == Asked(before, n);
    }
    assert n * (k + 1) == n * k + n;
  }

  /** Under the documented rule every failed probe buys five more refusals. */
  lemma {:induction false} EntryIsHistoryAsDocumented(outcomes: seq<bool>)
    ensures var p := RunAsDocumented(outcomes);
            && p.entry.fails == Fails(p.verdicts)
            && (Fails(p.verdicts) < FAIL_THRESHOLD ==> Refusals(p.verdicts) == 0 && p.entry.rest == Awake)
            && (Fails(p.verdicts) >= FAIL_THRESHOLD ==>
                  && SKIP_CYCLES * (Fails(p.verdicts) - FAIL_THRESHOLD) <= Refusals(p.verdicts)
                  && Refusals(p.verdicts) <= SKIP_CYCLES * (Fails(p.verdicts) - FAIL_THRESHOLD + 1)
                  && p.entry.rest == Resting(SKIP_CYCLES * (Fails(p.verdicts) - FAIL_THRESHOLD + 1)
                                             - Refusals(p.verdicts)))
  {
    if outcomes != [] {
      var init := outcomes[..|outcomes| - 1];
      EntryIsHistoryAsDocumented(init);
      Snoc(RunAsDocumented(init).verdicts, RoundAsDocumented(RunAsDocumented(init).entry, outcomes[|outcomes| - 1]).0);
    }
  }

  lemma {:induction false} RefusedIffAsDocumented(outcomes: seq<bool>, next: bool)
    ensures var h := RunAsDocumented(outcomes).verdicts;
            RunAsDocumented(outcomes + [next]).verdicts[|outcomes|] == Refused
            <==> Fails(h) >= FAIL_THRESHOLD && Refusals(h) < SKIP_CYCLES * (Fails(h) - FAIL_THRESHOLD + 1)
  {
    EntryIsHistoryAsDocumented(outcomes);
    assert (outcomes + [next])[..|outcomes|] == outcomes;
  }

  /** Below a fourth failure the two rules are the same automaton. */
  lemma {:induction false} AgreeBelowFour(outcomes: seq<bool>)
    requires forall n | 0 <= n < |outcomes| :: Run(outcomes[..n]).entry.fails <= FAIL_THRESHOLD
    ensures Run(outcomes).verdicts == RunAsDocumented(outcomes).verdicts
    ensures Run(outcomes).entry.fails <= FAIL_THRESHOLD ==> Run(outcomes).entry == RunAsDocumented(outcomes).entry
  {
    if outcomes != [] {
      var init := outcomes[..|outcomes| - 1];
      forall n | 0 <= n < |init|
        ensures Run(init[..n]).entry.fails <= FAIL_THRESHOLD
      {
        assert init[..n] == outcomes[..n];
      }
      AgreeBelowFour(init);
      EntryIsHistory(init);
    }
  }

  lemma {:induction false} PrefixOfRun(outcomes: seq<bool>, n: nat)
    requires n <= |outcomes|
    ensures Run(outcomes).verdicts[..n] == Run(outcomes[..n]).verdicts
    ensures RunAsDocumented(outcomes).verdicts[..n] == RunAsDocumented(outcomes[..n]).verdicts
  {
    if n == |outcomes| {
      assert outcomes[..n] == outcomes;
    } else {
      var init := outcomes[..|outcomes| - 1];
      PrefixOfRun(init, n);
      assert init[..n] == outcomes[..n];
    }
  }

  /** After a fourth failure the documented rule refuses where the code fetches. */
  lemma {:induction false} DisagreeAfterFour(outcomes: seq<bool>, next: bool)
    requires Run(outcomes).verdicts == RunAsDocumented(outcomes).verdicts
    requires forall n | 0 <= n < |outcomes| :: Run(outcomes[..n]).entry.fails <= FAIL_THRESHOLD
    requires Run(outcomes).entry.fails > FAIL_THRESHOLD
    ensures Run(outcomes + [next]).verdicts[|outcomes|] != Refused
    ensures RunAsDocumented(outcomes + [next]).verdicts[|outcomes|] == Refused
  {
    EntryIsHistory(outcomes);
    var init := outcomes[..|outcomes| - 1];
    assert Run(init).entry.fails <= FAIL_THRESHOLD;
    assert Fails(Run(outcomes).verdicts) == 4;
    RefusedIff(outcomes, next);
    RefusedIffAsDocumented(outcomes, next);
  }

  /** The code keeps the documented promise on a run exactly when no refresh of
      that run starts with more than three failures on the counter: the rest
      that a fourth failure should have re-armed never comes. */
  lemma {:induction false} DocumentedRuleKeptIff(outcomes: seq<bool>)
    ensures Run(outcomes).verdicts == RunAsDocumented(outcomes).verdicts
            <==> forall n | 0 <= n < |outcomes| :: Run(outcomes[..n]).entry.fails <= FAIL_THRESHOLD
  {
    if forall n | 0 <= n < |outcomes| :: Run(outcomes[..n]).entry.fails <= FAIL_THRESHOLD {
      AgreeBelowFour(outcomes);
    } else {
      var n := FirstFourth(outcomes);
      var before := outcomes[..n];
      forall k | 0 <= k < n
        ensures Run(before[..k]).entry.fails <= FAIL_THRESHOLD
      {
        assert before[..k] == outcomes[..k];
      }
      AgreeBelowFour(before);
      DisagreeAfterFour(before, outcomes[n]);
      assert before + [outcomes[n]] == outcomes[..n + 1];
      PrefixOfRun(outcomes, n + 1);
    }
  }

  /** The first refresh that starts with a fourth failure on the counter. */
  lemma FirstFourth(outcomes: seq<bool>) returns (n: nat)
    requires exists n | 0 <= n < |outcomes| :: Run(outcomes[..n]).entry.fails > FAIL_THRESHOLD
    ensures n < |outcomes| && Run(outcomes[..n]).entry.fails > FAIL_THRESHOLD
    ensures forall k | 0 <= k < n :: Run(outcomes[..k]).entry.fails <= FAIL_THRESHOLD
  {
    n := 0;
    while Run(outcomes[..n]).entry.fails <= FAIL_THRESHOLD
      invariant n < |outcomes|
      invariant forall k | 0 <= k < n :: Run(outcomes[..k]).entry.fails <= FAIL_THRESHOLD
      decreases |outcomes| - n
    {
      n := n + 1;
    }
  }

  /** A source that never answers: where the two rules stand after n refreshes. */
  lemma {:induction false} DeadSource(dead: seq<bool>)
    requires |dead| <= 9 && forall i | 0 <= i < |dead| :: !dead[i]
    ensures var n := |dead|;
            && (n < 3 ==> Run(dead).entry == RunAsDocumented(dead).entry == Entry(n, Awake))
            && (3 <= n < 9 ==> Run(dead).entry == RunAsDocumented(dead).entry == Entry(3, Resting(8 - n)))
            && (n == 9 ==> Run(dead).entry == Entry(4, Resting(0))
                           && RunAsDocumented(dead).entry == Entry(4, Resting(5)))
  {
    if dead != [] {
      DeadSource(dead[..|dead| - 1]);
    }
  }

  /** A run on which the promise is broken: the ninth refresh probes the rested
      source and fails, and the tenth fetches it again instead of resting it. */
  lemma FailedProbeDoesNotRearm(dead: seq<bool>)
    requires |dead| == 10 && forall i | 0 <= i < |dead| :: !dead[i]
    ensures Run(dead).verdicts[9] == Failed
    ensures RunAsDocumented(dead).verdicts[9] == Refused
  {
    DeadSource(dead[..9]);
  }
}
