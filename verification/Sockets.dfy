// foreignEstablished (v2proxy/selector.go): how many client connections stand on a
// serving port, counted by connection and not by table row.

module Sockets {
  import opened ProcTable
  import Pool

  const TCP_STATE_ESTABLISHED := "01"

  // ---- endpoint spellings ----

  function Digit(d: nat): (c: char)
    requires d < 10
    ensures c != ':'
  {
    '0' + d as char
  }

  /** strconv.Itoa for ports. */
  function Itoa(n: nat): (s: string)
    ensures s != "" && NoColon(s)
  {
    if n < 10 then [Digit(n)] else Itoa(n / 10) + [Digit(n % 10)]
  }

  function Spell(e: Endpoint): string {
    e.addr + ":" + Itoa(e.port)
  }

  lemma {:induction false} ItoaInjective(m: nat, n: nat)
    requires Itoa(m) == Itoa(n)
    ensures m == n
  {
    var s := Itoa(m);
    if m >= 10 && n >= 10 {
      assert s[..|s| - 1] == Itoa(m / 10) && s[..|s| - 1] == Itoa(n / 10);
      ItoaInjective(m / 10, n / 10);
      assert s[|s| - 1] == Digit(m % 10) && s[|s| - 1] == Digit(n % 10);
    }
  }

  lemma SpellInjective(a: Endpoint, b: Endpoint)
    requires Spell(a) == Spell(b)
    ensures a == b
  {
    LastColonOf(a.addr, Itoa(a.port));
    LastColonOf(b.addr, Itoa(b.port));
    ItoaInjective(a.port, b.port);
  }

  // ---- connections ----

  /** The byte order on strings. */
  predicate After(a: string, b: string) {
    if a == "" then false
    else if b == "" then true
    else a[0] > b[0] || (a[0] == b[0] && After(a[1..], b[1..]))
  }

  lemma {:induction false} OneIsAfter(a: string, b: string)
    ensures a != b ==> (After(a, b) <==> !After(b, a))
    ensures a == b ==> !After(a, b)
  {
    if a != "" && b != "" {
      OneIsAfter(a[1..], b[1..]);
      assert a == [a[0]] + a[1..] && b == [b[0]] + b[1..];
    }
  }

  /** A connection's key: its two endpoint spellings, smaller one first. */
  function Connection(r: Row): (string, string) {
    var l, m := Spell(r.local), Spell(r.remote);
    if After(l, m) then (m, l) else (l, m)
  }

  predicate SameConnection(q: Row, r: Row) {
    (q.local == r.local && q.remote == r.remote) || (q.local == r.remote && q.remote == r.local)
  }

  /** The key stands for the unordered pair of endpoints, no more and no less. */
  lemma ConnectionIsUnorderedPair(q: Row, r: Row)
    ensures Connection(q) == Connection(r) <==> SameConnection(q, r)
  {
    OneIsAfter(Spell(q.local), Spell(q.remote));
    OneIsAfter(Spell(r.local), Spell(r.remote));
    if Connection(q) == Connection(r) {
      if Spell(q.local) == Spell(r.local) {
        SpellInjective(q.local, r.local);
        SpellInjective(q.remote, r.remote);
      } else {
        SpellInjective(q.local, r.remote);
        SpellInjective(q.remote, r.local);
      }
    }
  }

  predicate Touches(r: Row, port: int) {
    r.local.port == port || r.remote.port == port
  }

  /** Some row of r's connection belongs to a socket this process holds. */
  predicate OwnedHere(rows: seq<Row>, own: set<string>, r: Row) {
    exists q | q in rows :: q.inode in own && SameConnection(q, r)
  }

  /** The connections to count: established, touching the port, neither end ours. */
  function Foreign(rows: seq<Row>, own: set<string>, port: int): set<(string, string)> {
    set r | r in rows && r.state == TCP_STATE_ESTABLISHED && Touches(r, port) && !OwnedHere(rows, own, r) ::
      Connection(r)
  }

  predicate Relevant(r: Row, port: int) {
    r.state == TCP_STATE_ESTABLISHED && Touches(r, port)
  }

  function OwnedKeys(rows: seq<Row>, own: set<string>): set<(string, string)> {
    if rows == [] then {}
    else
      var r := rows[|rows| - 1];
      OwnedKeys(rows[..|rows| - 1], own) + if r.inode in own then {Connection(r)} else {}
  }

  function RelevantKeys(rows: seq<Row>, port: int): set<(string, string)> {
    if rows == [] then {}
    else
      var r := rows[|rows| - 1];
      RelevantKeys(rows[..|rows| - 1], port) + if Relevant(r, port) then {Connection(r)} else {}
  }

  method ForeignEstablished(rows: seq<Row>, own: set<string>, port: int) returns (n: nat)
    ensures n == |Foreign(rows, own, port)|
  {
    var owned := OwnedConnections(rows, own);
    n := CountOthers(rows, port, owned);
    ForeignKeys(rows, own, port);
  }

  method OwnedConnections(rows: seq<Row>, own: set<string>) returns (owned: set<(string, string)>)
    ensures owned == OwnedKeys(rows, own)
  {
    owned := {};
    for i := 0 to |rows|
      invariant owned == OwnedKeys(rows[..i], own)
    {
      assert rows[..i + 1][..i] == rows[..i];
      if rows[i].inode in own {
        owned := owned + {Connection(rows[i])};
      }
    }
    assert rows[..|rows|] == rows;
  }

  method CountOthers(rows: seq<Row>, port: int, owned: set<(string, string)>)
    returns (n: nat)
    ensures n == |RelevantKeys(rows, port) - owned|
  {
    n := 0;
    var seen: set<(string, string)> := {};
    for i := 0 to |rows|
      invariant n == |seen|
      invariant seen == RelevantKeys(rows[..i], port) - owned
    {
      OneMoreRow(rows, i, port, owned);
      if rows[i].state != TCP_STATE_ESTABLISHED {
        continue;
      }
      if rows[i].local.port != port && rows[i].remote.port != port {
        continue;
      }
      var key := Connection(rows[i]);
      if key in owned || key in seen {
        continue;
      }
      seen := seen + {key};
      n := n + 1;
    }
    assert rows[..|rows|] == rows;
  }

  lemma OneMoreRow(rows: seq<Row>, i: nat, port: int, owned: set<(string, string)>)
    requires i < |rows|
    ensures RelevantKeys(rows[..i + 1], port) - owned
         == RelevantKeys(rows[..i], port) - owned
            + if Relevant(rows[i], port) && Connection(rows[i]) !in owned then {Connection(rows[i])} else {}
  {
    assert rows[..i + 1][..i] == rows[..i];
  }

  lemma {:induction false} KeysMeaning(rows: seq<Row>, own: set<string>, port: int, key: (string, string))
    ensures key in OwnedKeys(rows, own) <==>
              exists i :: 0 <= i < |rows| && rows[i].inode in own && Connection(rows[i]) == key
    ensures key in RelevantKeys(rows, port) <==>
              exists i :: 0 <= i < |rows| && Relevant(rows[i], port) && Connection(rows[i]) == key
  {
    if rows != [] {
      var init := rows[..|rows| - 1];
      KeysMeaning(init, own, port, key);
      assert forall i | 0 <= i < |init| :: init[i] == rows[i];
    }
  }

  lemma OwnedKeyIffOwnedHere(rows: seq<Row>, own: set<string>, port: int, r: Row)
    ensures Connection(r) in OwnedKeys(rows, own) <==> OwnedHere(rows, own, r)
  {
    KeysMeaning(rows, own, port, Connection(r));
    if i :| 0 <= i < |rows| && rows[i].inode in own && Connection(rows[i]) == Connection(r) {
      ConnectionIsUnorderedPair(rows[i], r);
      assert rows[i] in rows;
    }
    if OwnedHere(rows, own, r) {
      var q :| q in rows && q.inode in own && SameConnection(q, r);
      ConnectionIsUnorderedPair(q, r);
    }
  }

  lemma ForeignKeys(rows: seq<Row>, own: set<string>, port: int)
    ensures Foreign(rows, own, port) == RelevantKeys(rows, port) - OwnedKeys(rows, own)
  {
    forall key
      ensures key in Foreign(rows, own, port) <==> key in RelevantKeys(rows, port) - OwnedKeys(rows, own)
    {
      KeysMeaning(rows, own, port, key);
      if key in Foreign(rows, own, port) {
        var r :| r in rows && r.state == TCP_STATE_ESTABLISHED && Touches(r, port) && !OwnedHere(rows, own, r)
                 && Connection(r) == key;
        OwnedKeyIffOwnedHere(rows, own, port, r);
        var i :| 0 <= i < |rows| && rows[i] == r;
        assert Relevant(rows[i], port);
      } else if i :| 0 <= i < |rows| && Relevant(rows[i], port) && Connection(rows[i]) == key {
        OwnedKeyIffOwnedHere(rows, own, port, rows[i]);
        assert rows[i] in rows;
      }
    }
  }

  // ---- the count depends on the connections only ----

  /** Row order, repeated rows, and listing a connection from its other end all leave
      the count alone: it is the same for any two tables that know the same
      established connections and the same owned ones. */
  lemma SameConnectionsSameCount(a: seq<Row>, b: seq<Row>, own: set<string>, port: int)
    requires Covers(a, b, own) && Covers(b, a, own)
    ensures Foreign(a, own, port) == Foreign(b, own, port)
  {
    ForeignWithin(a, b, own, port);
    ForeignWithin(b, a, own, port);
  }

  /** Some row of b is for the same connection, in the same state and owned alike. */
  predicate HasTwin(b: seq<Row>, own: set<string>, r: Row) {
    exists q | q in b :: SameConnection(q, r) && q.state == r.state && (q.inode in own <==> r.inode in own)
  }

  predicate Covers(a: seq<Row>, b: seq<Row>, own: set<string>) {
    forall r {:trigger HasTwin(b, own, r)} | r in a :: HasTwin(b, own, r)
  }

  lemma ForeignWithin(a: seq<Row>, b: seq<Row>, own: set<string>, port: int)
    requires Covers(a, b, own) && Covers(b, a, own)
    ensures Foreign(a, own, port) <= Foreign(b, own, port)
  {
    forall key | key in Foreign(a, own, port)
      ensures key in Foreign(b, own, port)
    {
      var r :| r in a && r.state == TCP_STATE_ESTABLISHED && Touches(r, port) && !OwnedHere(a, own, r)
        && Connection(r) == key;
      var q := Counterpart(a, b, own, r);
      ConnectionIsUnorderedPair(q, r);
      assert Touches(q, port);
    }
  }

  lemma Counterpart(a: seq<Row>, b: seq<Row>, own: set<string>, r: Row) returns (q: Row)
    requires Covers(a, b, own) && Covers(b, a, own) && r in a && !OwnedHere(a, own, r)
    ensures q in b && SameConnection(q, r) && q.state == r.state && !OwnedHere(b, own, q)
  {
    assert HasTwin(b, own, r);
    q :| q in b && SameConnection(q, r) && q.state == r.state;
    if OwnedHere(b, own, q) {
      var o :| o in b && o.inode in own && SameConnection(o, q);
      assert HasTwin(a, own, o);
      var p :| p in a && SameConnection(p, o) && (p.inode in own <==> o.inode in own);
      assert SameConnection(p, r);
    }
  }

  function Flip(r: Row): Row {
    r.(local := r.remote, remote := r.local)
  }

  /** In particular: any rows may be flipped end for end, and repeated or reordered. */
  lemma FlipsAndRepeatsDoNotCount(a: seq<Row>, b: seq<Row>, own: set<string>, port: int)
    requires forall r | r in a :: r in b || Flip(r) in b
    requires forall r | r in b :: r in a || Flip(r) in a
    ensures |Foreign(a, own, port)| == |Foreign(b, own, port)|
  {
    FlipsCover(a, b, own);
    FlipsCover(b, a, own);
    SameConnectionsSameCount(a, b, own, port);
  }

  lemma FlipsCover(a: seq<Row>, b: seq<Row>, own: set<string>)
    requires forall r | r in a :: r in b || Flip(r) in b
    ensures Covers(a, b, own)
  {
    forall r | r in a
      ensures HasTwin(b, own, r)
    {
      if r in b {
        assert SameConnection(r, r);
      } else {
        assert SameConnection(Flip(r), r);
      }
    }
  }

  /** Learning of more sockets of our own can only lower the count. */
  lemma MoreOwnedCountsFewer(rows: seq<Row>, own: set<string>, more: set<string>, port: int)
    requires own <= more
    ensures Foreign(rows, more, port) <= Foreign(rows, own, port)
    ensures |Foreign(rows, more, port)| <= |Foreign(rows, own, port)|
  {
    Pool.SubsetSize(Foreign(rows, more, port), Foreign(rows, own, port));
  }

  /** A client and the proxy child, both foreign, show up as two rows and count once;
      our own probe shows up as one of ours and one of the child's and counts not at all. */
  lemma OneClientCountsOnce(client: Row, probe: Row, port: int)
    requires client.state == probe.state == TCP_STATE_ESTABLISHED && client.local.port == port
    requires probe.remote.port == port
    requires client.inode != probe.inode && !SameConnection(client, probe)
    ensures var child := Flip(probe).(inode := client.inode);
            |Foreign([client, Flip(client), probe, child], {probe.inode}, port)| == 1
  {
    var rows := [client, Flip(client), probe, Flip(probe).(inode := client.inode)];
    ConnectionIsUnorderedPair(client, Flip(client));
    assert OwnedHere(rows, {probe.inode}, probe);
    assert OwnedHere(rows, {probe.inode}, rows[3]);
    assert !OwnedHere(rows, {probe.inode}, client);
    assert client in rows;
    assert Foreign(rows, {probe.inode}, port) == {Connection(client)};
  }
}
