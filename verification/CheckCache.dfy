// The /check result cache (v2proxy/urlcheck.go): bounded, time-limited, and with
// one flight a key that concurrent requests join.

module CheckCache {
  import opened Pool

  const CHECK_CACHE_TTL := 60_000
  const CHECK_CACHE_ENTRIES := 128
  const CHECK_MAX_DEPTH := 32

  datatype CheckResult = CheckResult(probedURL: string, depth: nat, alive: seq<string>, pool: seq<string>, cached: bool)

  datatype Entry = Entry(at: int, res: CheckResult)

  datatype Outcome = Outcome(res: CheckResult, err: bool)

  /** What eviction may do to a full cache: keep a part below the cap and drop only
      entries at least as old as every one kept. A cache with room is left alone. */
  ghost predicate Evicted(before: map<string, Entry>, after: map<string, Entry>) {
    && after.Keys <= before.Keys
    && (forall k | k in after :: after[k] == before[k])
    && (forall k, d | k in after && d in before && d !in after :: before[d].at <= before[k].at)
    && |after| < CHECK_CACHE_ENTRIES
    && (|before| < CHECK_CACHE_ENTRIES ==> after == before)
    && (|before| >= CHECK_CACHE_ENTRIES ==> |after| == CHECK_CACHE_ENTRIES - 1)
  }

  class CheckFlight {
    var done: bool
    var res: CheckResult
    var err: bool

    constructor ()
      ensures !done
    {
      done := false;
      res, err := CheckResult("", 0, [], [], false), false;
    }
  }

  class UrlCheckCache {
    var entries: map<string, Entry>
    var inflight: map<string, CheckFlight>

    constructor ()
      ensures entries == map[] && inflight == map[]
    {
      entries, inflight := map[], map[];
    }

    method Get(key: string, now: int) returns (hit: Option<CheckResult>)
      ensures hit.Some? <==> key in entries && now - entries[key].at <= CHECK_CACHE_TTL
      ensures hit.Some? ==> hit.value == entries[key].res.(cached := true)
    {
      if key !in entries || now - entries[key].at > CHECK_CACHE_TTL {
        return None;
      }
      return Some(entries[key].res.(cached := true));
    }

    method Begin(key: string) returns (f: CheckFlight, leader: bool)
      modifies this`inflight
      ensures leader <==> key !in old(inflight)
      ensures leader ==> fresh(f) && !f.done && inflight == old(inflight)[key := f]
      ensures !leader ==> f == old(inflight)[key] && inflight == old(inflight)
    {
      if key in inflight {
        return inflight[key], false;
      }
      f := new CheckFlight();
      inflight := inflight[key := f];
      return f, true;
    }

    /** Closing a flight twice would panic, so the caller must hold an open one. */
    method Finish(key: string, f: CheckFlight, res: CheckResult, err: bool, now: int)
      requires !f.done
      modifies this, f
      ensures f.done && f.res == res && f.err == err
      ensures inflight == old(inflight) - {key}
      ensures err ==> entries == old(entries)
      ensures !err && |old(entries)| <= CHECK_CACHE_ENTRIES ==>
                && |entries| <= CHECK_CACHE_ENTRIES
                && exists kept :: Evicted(old(entries), kept) && entries == kept[key := Entry(now, res)]
    {
      f.res, f.err := res, err;
      if !err {
        while |entries| >= CHECK_CACHE_ENTRIES
          invariant f.res == res && f.err == err && inflight == old(inflight)
          invariant |old(entries)| <= CHECK_CACHE_ENTRIES ==>
                      entries == old(entries)
                        || (|old(entries)| == CHECK_CACHE_ENTRIES && Evicted(old(entries), entries))
          decreases |entries|
        {
          var oldestKey := Oldest(entries);
          DropOldest(entries, oldestKey);
          entries := entries - {oldestKey};
        }
        assert |old(entries)| <= CHECK_CACHE_ENTRIES ==> Evicted(old(entries), entries);
        GrowByOne(entries, key, Entry(now, res));
        entries := entries[key := Entry(now, res)];
      }
      inflight := inflight - {key};
      f.done := true;
    }
  }

  lemma GrowByOne(m: map<string, Entry>, key: string, e: Entry)
    ensures |m[key := e]| <= |m| + 1
  {
    if key in m {
      assert m[key := e].Keys == m.Keys;
    } else {
      assert m[key := e].Keys == m.Keys + {key};
    }
    assert |m.Keys| == |m| && |m[key := e].Keys| == |m[key := e]|;
  }

  lemma DropOldest(m: map<string, Entry>, key: string)
    requires key in m && forall k | k in m :: m[key].at <= m[k].at
    ensures |m - {key}| == |m| - 1
    ensures |m| == CHECK_CACHE_ENTRIES ==> Evicted(m, m - {key})
  {
    assert (m - {key}).Keys == m.Keys - {key};
    assert |m.Keys| == |m| && |(m - {key}).Keys| == |m - {key}|;
  }

  /** The scan over a map for its oldest entry, in no particular order. */
  method Oldest(entries: map<string, Entry>) returns (oldestKey: string)
    requires |entries| > 0
    ensures oldestKey in entries && forall k | k in entries :: entries[oldestKey].at <= entries[k].at
  {
    var left := entries.Keys;
    assert |left| == |entries|;
    oldestKey :| oldestKey in left;
    while left != {}
      invariant left <= entries.Keys && oldestKey in entries
      invariant forall k | k in entries && k !in left :: entries[oldestKey].at <= entries[k].at
      decreases |left|
    {
      var k :| k in left;
      if entries[k].at < entries[oldestKey].at {
        oldestKey := k;
      }
      left := left - {k};
    }
  }
}
