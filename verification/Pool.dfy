// Upstream configs and the pools (ordered lists) that selectors draw from.

module Pool {

  datatype Option<+T> = None | Some(value: T)

  /** One upstream. Its Key is the identity that dedup, claims and exclusions use. */
  datatype ProxyConfig = ProxyConfig(name: string, raw: string, endpoint: string) {
    function Key(): string {
      if endpoint != "" then endpoint else raw
    }
  }

  predicate KeyDistinct(pool: seq<ProxyConfig>) {
    forall i, j | 0 <= i < j < |pool| :: pool[i].Key() != pool[j].Key()
  }

  function Keys(pool: seq<ProxyConfig>): set<string> {
    set c | c in pool :: c.Key()
  }

  /** The first position holding `key`, or -1. */
  function IndexOfKey(pool: seq<ProxyConfig>, key: string): (i: int)
    ensures -1 <= i < |pool|
    ensures i >= 0 ==> pool[i].Key() == key && forall j | 0 <= j < i :: pool[j].Key() != key
    ensures i < 0 <==> key !in Keys(pool)
  {
    if pool == [] then -1
    else if pool[0].Key() == key then 0
    else
      assert pool == [pool[0]] + pool[1..];
      var i := IndexOfKey(pool[1..], key);
      if i < 0 then -1 else i + 1
  }

  lemma KeysSnoc(pool: seq<ProxyConfig>, c: ProxyConfig)
    ensures Keys(pool + [c]) == Keys(pool) + {c.Key()}
  {
    assert forall d :: d in pool + [c] <==> d in pool || d == c;
  }

  /** Keeps the first config of every key (manager.go dedupConfigs). */
  method DedupConfigs(pool: seq<ProxyConfig>) returns (out: seq<ProxyConfig>)
    ensures KeyDistinct(out)
    ensures Keys(out) == Keys(pool)
    ensures out == FirstOfEachKey(pool)
  {
    out := [];
    var seen: set<string> := {};
    for i := 0 to |pool|
      invariant seen == Keys(out) == Keys(pool[..i])
      invariant KeyDistinct(out)
      invariant out == FirstOfEachKey(pool[..i])
    {
      assert pool[..i + 1] == pool[..i] + [pool[i]];
      assert pool[..i + 1][..i] == pool[..i];
      KeysSnoc(pool[..i], pool[i]);
      if pool[i].Key() !in seen {
        seen := seen + {pool[i].Key()};
        KeysSnoc(out, pool[i]);
        out := out + [pool[i]];
      }
    }
    assert pool[..|pool|] == pool;
  }

  function FirstOfEachKey(pool: seq<ProxyConfig>): seq<ProxyConfig> {
    if pool == [] then []
    else
      var init := pool[..|pool| - 1];
      var last := pool[|pool| - 1];
      if last.Key() in Keys(init) then FirstOfEachKey(init) else FirstOfEachKey(init) + [last]
  }

  lemma {:induction false} SubsetSize<T>(a: set<T>, b: set<T>)
    requires a <= b
    ensures |a| <= |b|
  {
    if x :| x in a {
      SubsetSize(a - {x}, b - {x});
    }
  }
}
