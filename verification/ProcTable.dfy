// The kernel's socket tables as text (v2proxy/selector.go parseProcNetTCP,
// parseProcRow, parseProcEndpoint) over ASCII, with a printer and its inverse.

module ProcTable {
  import opened Pool

  datatype Endpoint = Endpoint(addr: string, port: nat)

  datatype Row = Row(local: Endpoint, remote: Endpoint, state: string, inode: string)

  const V4_MAPPED_PREFIX := "0000000000000000FFFF0000"

  // ---- text ----

  predicate NoSpace(s: string) {
    forall i | 0 <= i < |s| :: !IsSpace(s[i])
  }

  predicate NoColon(s: string) {
    forall i | 0 <= i < |s| :: s[i] != ':'
  }

  predicate NoNewline(s: string) {
    forall i | 0 <= i < |s| :: s[i] != '\n'
  }

  predicate IsSpace(c: char) {
    c == ' ' || c == '\t' || c == '\n' || c == '\r' || c == '\U{0B}' || c == '\U{0C}'
  }

  /** strings.Split at newlines: never empty. */
  function Lines(s: string): (lines: seq<string>)
    ensures lines != []
  {
    if s == "" then [""]
    else
      var rest := Lines(s[1..]);
      if s[0] == '\n' then [""] + rest else [[s[0]] + rest[0]] + rest[1..]
  }

  /** strings.Fields: the maximal runs of non-space characters. */
  function Fields(line: string): (fields: seq<string>)
    ensures forall i | 0 <= i < |fields| :: fields[i] != ""
  {
    if line == "" then []
    else
      var rest := Fields(line[1..]);
      if IsSpace(line[0]) then rest
      else if |line| == 1 || IsSpace(line[1]) || rest == [] then [[line[0]]] + rest
      else [[line[0]] + rest[0]] + rest[1..]
  }

  function UpperChar(c: char): char {
    if 'a' <= c <= 'z' then c - 'a' + 'A' else c
  }

  function ToUpper(s: string): (u: string)
    ensures |u| == |s|
  {
    seq(|s|, i requires 0 <= i < |s| => UpperChar(s[i]))
  }

  function LastColon(s: string): (i: int)
    ensures -1 <= i < |s|
    ensures i >= 0 ==> s[i] == ':'
    ensures forall j | i < j < |s| :: s[j] != ':'
  {
    if s == "" then -1
    else if s[|s| - 1] == ':' then |s| - 1
    else LastColon(s[..|s| - 1])
  }

  function HexDigit(c: char): (v: int)
    ensures -1 <= v < 16
  {
    if '0' <= c <= '9' then (c - '0') as int
    else if 'a' <= c <= 'f' then (c - 'a') as int + 10
    else if 'A' <= c <= 'F' then (c - 'A') as int + 10
    else -1
  }

  predicate AllHex(s: string) {
    forall i | 0 <= i < |s| :: HexDigit(s[i]) >= 0
  }

  function HexValue(s: string): nat
    requires AllHex(s)
  {
    if s == "" then 0 else 16 * HexValue(s[..|s| - 1]) + HexDigit(s[|s| - 1])
  }

  /** strconv.ParseUint(s, 16, 32). */
  function ParseHex32(s: string): Option<nat> {
    if s != "" && AllHex(s) && HexValue(s) < 0x1_0000_0000 then Some(HexValue(s)) else None
  }

  // ---- the parser ----

  function ParseEndpoint(field: string): Option<Endpoint> {
    var i := LastColon(field);
    if i < 0 then None
    else
      var addr := ToUpper(field[..i]);
      match ParseHex32(field[i + 1..])
      case None => None
      case Some(port) =>
        if |addr| == 8 then Some(Endpoint(addr, port))
        else if |addr| == 32 then
          Some(Endpoint(if V4_MAPPED_PREFIX <= addr then addr[24..] else addr, port))
        else None
  }

  function ParseRow(fields: seq<string>): Option<Row> {
    if |fields| < 10 then None
    else
      match (ParseEndpoint(fields[1]), ParseEndpoint(fields[2]))
      case (Some(local), Some(remote)) =>
        if |fields[3]| == 2 && AllHex(fields[3]) then Some(Row(local, remote, fields[3], fields[9])) else None
      case _ => None
  }

  method ParseProcNetTCP(table: string) returns (rows: Option<seq<Row>>)
    ensures rows == ParseTable(table)
  {
    var out: seq<Row> := [];
    var headed := false;
    var lines := Lines(table);
    ghost var seen: seq<string> := [];
    for k := 0 to |lines|
      invariant seen == NonBlank(lines[..k])
      invariant headed <==> seen != []
      invariant if headed then ParsedLines(seen) == Some(out) else out == []
    {
      NonBlankNext(lines, k);
      var fields := Fields(lines[k]);
      if |fields| == 0 {
        continue;
      }
      ParsedLinesSnoc(seen, lines[k]);
      seen := seen + [lines[k]];
      if !headed {
        headed := true;
        if fields[0] == "sl" {
          continue;
        }
        RejectedAt(lines, k);
        return None;
      }
      match ParseRow(fields)
      case None =>
        RejectedAt(lines, k);
        return None;
      case Some(row) =>
        out := out + [row];
    }
    assert lines[..|lines|] == lines;
    return if headed then Some(out) else None;
  }

  // ---- what the parser computes ----

  function NonBlank(lines: seq<string>): seq<string> {
    if lines == [] then []
    else if Fields(lines[0]) == [] then NonBlank(lines[1..])
    else [lines[0]] + NonBlank(lines[1..])
  }

  predicate IsHeader(line: string) {
    Fields(line) != [] && Fields(line)[0] == "sl"
  }

  /** Every row, or nothing. */
  function Collect(parsed: seq<Option<Row>>): Option<seq<Row>> {
    if parsed == [] then Some([])
    else
      match (Collect(parsed[..|parsed| - 1]), parsed[|parsed| - 1])
      case (Some(rows), Some(row)) => Some(rows + [row])
      case _ => None
  }

  function ParseLines(lines: seq<string>): (parsed: seq<Option<Row>>)
    ensures |parsed| == |lines|
  {
    seq(|lines|, k requires 0 <= k < |lines| => ParseRow(Fields(lines[k])))
  }

  /** A header, then rows that all parse: anything else is not understood. */
  function ParsedLines(lines: seq<string>): Option<seq<Row>> {
    if lines != [] && IsHeader(lines[0]) then Collect(ParseLines(lines[1..])) else None
  }

  function ParseTable(table: string): Option<seq<Row>> {
    ParsedLines(NonBlank(Lines(table)))
  }

  function Kept(line: string): seq<string> {
    if Fields(line) == [] then [] else [line]
  }

  lemma NonBlankCons(line: string, rest: seq<string>)
    ensures NonBlank([line] + rest) == Kept(line) + NonBlank(rest)
  {
    assert ([line] + rest)[1..] == rest;
  }

  lemma {:induction false} NonBlankAppend(a: seq<string>, b: seq<string>)
    ensures NonBlank(a + b) == NonBlank(a) + NonBlank(b)
  {
    if a == [] {
      assert a + b == b;
    } else {
      var line, rest := a[0], a[1..];
      assert a == [line] + rest && a + b == [line] + (rest + b);
      NonBlankCons(line, rest);
      NonBlankCons(line, rest + b);
      NonBlankAppend(rest, b);
    }
  }

  lemma NonBlankSnoc(a: seq<string>, line: string)
    ensures NonBlank(a + [line]) == if Fields(line) == [] then NonBlank(a) else NonBlank(a) + [line]
  {
    NonBlankAppend(a, [line]);
    assert [line][1..] == [];
  }

  lemma CollectSnoc(parsed: seq<Option<Row>>, r: Option<Row>)
    ensures Collect(parsed + [r]) == match (Collect(parsed), r)
                                     case (Some(rows), Some(row)) => Some(rows + [row])
                                     case _ => None
  {
    assert (parsed + [r])[..|parsed|] == parsed;
  }

  lemma ParsedLinesSnoc(a: seq<string>, line: string)
    ensures a == [] ==> ParsedLines(a + [line]) == if IsHeader(line) then Some([]) else None
    ensures a != [] ==>
              ParsedLines(a + [line]) == (if ParsedLines(a).Some? && ParseRow(Fields(line)).Some?
                                          then Some(ParsedLines(a).value + [ParseRow(Fields(line)).value]) else None)
  {
    var b := a + [line];
    if a == [] {
      assert ParseLines(b[1..]) == [];
    } else {
      assert ParseLines(b[1..]) == ParseLines(a[1..]) + [ParseRow(Fields(line))];
      CollectSnoc(ParseLines(a[1..]), ParseRow(Fields(line)));
    }
  }

  lemma {:induction false} RejectedPrefix(a: seq<string>, b: seq<string>)
    requires a != [] && ParsedLines(a).None?
    ensures ParsedLines(a + b).None?
  {
    if b == [] {
      assert a + b == a;
    } else {
      RejectedPrefix(a, b[..|b| - 1]);
      ParsedLinesSnoc(a + b[..|b| - 1], b[|b| - 1]);
      assert a + b == (a + b[..|b| - 1]) + [b[|b| - 1]];
    }
  }

  lemma NonBlankNext(lines: seq<string>, k: nat)
    requires k < |lines|
    ensures NonBlank(lines[..k + 1])
            == if Fields(lines[k]) == [] then NonBlank(lines[..k]) else NonBlank(lines[..k]) + [lines[k]]
  {
    NonBlankSnoc(lines[..k], lines[k]);
    assert lines[..k + 1] == lines[..k] + [lines[k]];
  }

  lemma RejectedAt(lines: seq<string>, k: nat)
    requires k < |lines| && NonBlank(lines[..k + 1]) != [] && ParsedLines(NonBlank(lines[..k + 1])).None?
    ensures ParsedLines(NonBlank(lines)).None?
  {
    assert lines == lines[..k + 1] + lines[k + 1..];
    NonBlankAppend(lines[..k + 1], lines[k + 1..]);
    RejectedPrefix(NonBlank(lines[..k + 1]), NonBlank(lines[k + 1..]));
  }

  lemma {:induction false} CollectsOneByOne(parsed: seq<Option<Row>>)
    ensures Collect(parsed).Some? <==> forall k | 0 <= k < |parsed| :: parsed[k].Some?
    ensures Collect(parsed).Some? ==>
              && |Collect(parsed).value| == |parsed|
              && forall k | 0 <= k < |parsed| :: Some(Collect(parsed).value[k]) == parsed[k]
  {
    if parsed != [] {
      CollectsOneByOne(parsed[..|parsed| - 1]);
    }
  }

  /** A table is understood exactly when its first non-blank line is the header and
      every other one is a row; then it yields one row a line, in order. So a
      missing header, or one bad row anywhere, rejects the whole table. */
  lemma UnderstoodIff(table: string)
    ensures var lines := NonBlank(Lines(table));
            && (ParseTable(table).Some?
                <==> lines != [] && IsHeader(lines[0])
                     && forall k | 0 <= k < |lines| - 1 :: ParseLines(lines[1..])[k].Some?)
            && (ParseTable(table).Some? ==>
                  && |ParseTable(table).value| == |lines| - 1
                  && forall k | 0 <= k < |lines| - 1 :: Some(ParseTable(table).value[k]) == ParseLines(lines[1..])[k])
  {
    var lines := NonBlank(Lines(table));
    if lines != [] {
      CollectsOneByOne(ParseLines(lines[1..]));
    }
  }

  lemma LinesCons(c: char, s: string)
    ensures Lines([c] + s) == if c == '\n' then [""] + Lines(s) else [[c] + Lines(s)[0]] + Lines(s)[1..]
  {
    assert ([c] + s)[1..] == s;
  }

  lemma {:induction false} LinesAppend(x: string, y: string)
    ensures Lines(x + "\n" + y) == Lines(x) + Lines(y)
  {
    if x == "" {
      assert x + "\n" + y == ['\n'] + y;
      LinesCons('\n', y);
    } else {
      var tail := x[1..];
      LinesAppend(tail, y);
      assert x + "\n" + y == [x[0]] + (tail + "\n" + y);
      LinesCons(x[0], tail + "\n" + y);
      assert x == [x[0]] + tail;
      LinesCons(x[0], tail);
      ConsAppend(x[0], Lines(tail), Lines(y));
    }
  }

  lemma ConsAppend(c: char, a: seq<string>, b: seq<string>)
    requires a != []
    ensures [""] + (a + b) == ([""] + a) + b
    ensures [[c] + (a + b)[0]] + (a + b)[1..] == ([[c] + a[0]] + a[1..]) + b
  {
  }

  /** Blank lines, anywhere, change nothing. */
  lemma BlankLinesChangeNothing(x: string, blank: string, y: string)
    requires Fields(blank) == [] && NoNewline(blank)
    ensures ParseTable(x + "\n" + blank + "\n" + y) == ParseTable(x + "\n" + y)
  {
    OneLine(blank);
    LinesAppend(x, y);
    LinesAppend(x + "\n" + blank, y);
    LinesAppend(x, blank);
    NonBlankAppend(Lines(x), Lines(y));
    NonBlankAppend(Lines(x) + [blank], Lines(y));
    NonBlankSnoc(Lines(x), blank);
  }

  lemma {:induction false} OneLine(line: string)
    requires NoNewline(line)
    ensures Lines(line) == [line]
  {
    if line != "" {
      assert line[0] != '\n';
      OneLine(line[1..]);
      assert [line[0]] + line[1..] == line;
    }
  }

  /** The IPv4 spelling of an endpoint and its v4-mapped IPv6 spelling are one endpoint. */
  lemma MappedIsSameEndpoint(field: string)
    requires LastColon(field) == 8
    ensures ParseEndpoint(V4_MAPPED_PREFIX + field) == ParseEndpoint(field)
  {
    var long := V4_MAPPED_PREFIX + field;
    ColonShift(V4_MAPPED_PREFIX, field);
    assert long[33..] == field[9..];
    assert long[..32] == V4_MAPPED_PREFIX + field[..8];
    var upper := ToUpper(long[..32]);
    assert forall i | 0 <= i < 24 :: UpperChar(V4_MAPPED_PREFIX[i]) == V4_MAPPED_PREFIX[i];
    assert upper[..24] == V4_MAPPED_PREFIX;
    assert upper[24..] == ToUpper(field[..8]);
  }

  lemma ColonShift(a: string, b: string)
    requires LastColon(b) >= 0
    ensures LastColon(a + b) == |a| + LastColon(b)
  {
    var i, j := LastColon(a + b), |a| + LastColon(b);
    assert (a + b)[j] == ':';
    assert forall k | j < k < |a + b| :: (a + b)[k] == b[k - |a|];
  }

  // ---- printing ----

  function HexChar(d: nat): (c: char)
    requires d < 16
    ensures HexDigit(c) == d && c != ':' && !IsSpace(c)
  {
    if d < 10 then '0' + d as char else 'A' + (d - 10) as char
  }

  function Hex(n: nat): (s: string)
    ensures s != "" && AllHex(s) && HexValue(s) == n
    ensures NoColon(s) && NoSpace(s)
  {
    if n < 16 then [HexChar(n)]
    else
      var s := Hex(n / 16) + [HexChar(n % 16)];
      assert s[..|s| - 1] == Hex(n / 16);
      s
  }

  /** At least four digits, as the kernel writes ports. */
  function RenderPort(n: nat): string {
    Zeros(4 - |Hex(n)|) + Hex(n)
  }

  function Zeros(k: int): string {
    if k <= 0 then "" else "0" + Zeros(k - 1)
  }

  predicate Digits(s: string) {
    AllHex(s) && NoColon(s) && NoSpace(s)
  }

  lemma {:induction false} LeadingZeros(k: int, s: string)
    requires Digits(s)
    ensures Digits(Zeros(k) + s) && HexValue(Zeros(k) + s) == HexValue(s)
  {
    if k <= 0 {
      assert Zeros(k) + s == s;
    } else {
      LeadingZeros(k - 1, s);
      ZeroFirst(Zeros(k - 1) + s);
      assert Zeros(k) + s == "0" + (Zeros(k - 1) + s);
    }
  }

  lemma ZeroFirst(s: string)
    requires Digits(s)
    ensures Digits("0" + s) && HexValue("0" + s) == HexValue(s)
  {
    assert HexDigit('0') == 0;
    ZeroIsNothing(s);
  }

  lemma {:induction false} ZeroIsNothing(s: string)
    requires AllHex(s)
    ensures AllHex("0" + s) && HexValue("0" + s) == HexValue(s)
  {
    var z := "0" + s;
    assert HexDigit('0') == 0;
    assert AllHex(z);
    if s == "" {
      assert z[..0] == "";
    } else {
      ZeroIsNothing(s[..|s| - 1]);
      assert z[..|z| - 1] == "0" + s[..|s| - 1];
    }
  }

  function RenderEndpoint(e: Endpoint): string {
    e.addr + ":" + RenderPort(e.port)
  }

  /** A field of a line: not empty, no white space. */
  predicate Token(s: string) {
    s != "" && NoSpace(s)
  }

  predicate AllTokens(ts: seq<string>) {
    forall i | 0 <= i < |ts| :: Token(ts[i])
  }

  /** The endpoints the parser can produce. */
  predicate Canonical(e: Endpoint) {
    && Token(e.addr) && ToUpper(e.addr) == e.addr && e.port < 0x1_0000_0000
    && (|e.addr| == 8 || (|e.addr| == 32 && !(V4_MAPPED_PREFIX <= e.addr)))
  }

  predicate Printable(r: Row) {
    Canonical(r.local) && Canonical(r.remote) && |r.state| == 2 && AllHex(r.state) && Token(r.inode)
  }

  /** The columns the parser does not look at: the slot before, five between state and inode, the rest after. */
  datatype Dress = Dress(slot: string, middle: seq<string>, tail: seq<string>)

  predicate Plain(d: Dress) {
    Token(d.slot) && |d.middle| == 5 && AllTokens(d.middle) && AllTokens(d.tail)
  }

  predicate AllPrintable(rows: seq<Row>, dress: seq<Dress>)
    requires |dress| == |rows|
  {
    forall k | 0 <= k < |rows| :: Printable(rows[k]) && Plain(dress[k])
  }

  function Columns(r: Row, d: Dress): seq<string> {
    [d.slot, RenderEndpoint(r.local), RenderEndpoint(r.remote), r.state] + d.middle + [r.inode] + d.tail
  }

  function Join(tokens: seq<string>): string {
    if tokens == [] then "" else if |tokens| == 1 then tokens[0] else tokens[0] + " " + Join(tokens[1..])
  }

  /** A table: the header line, then one line for each of the first k rows. */
  function Render(header: string, rows: seq<Row>, dress: seq<Dress>, k: nat): string
    requires k <= |rows| == |dress|
  {
    if k == 0 then header
    else Render(header, rows, dress, k - 1) + "\n" + Join(Columns(rows[k - 1], dress[k - 1]))
  }

  lemma LastColonAt(f: string, i: nat)
    requires i < |f| && f[i] == ':' && forall j | i < j < |f| :: f[j] != ':'
    ensures LastColon(f) == i
  {
  }

  lemma LastColonOf(a: string, b: string)
    requires NoColon(b)
    ensures LastColon(a + ":" + b) == |a|
    ensures (a + ":" + b)[..|a|] == a && (a + ":" + b)[|a| + 1..] == b
  {
    var f := a + ":" + b;
    SplitAtColon(a, b, f);
    forall j | |a| < j < |f|
      ensures f[j] != ':'
    {
      assert f[j] == f[|a| + 1..][j - |a| - 1];
    }
    LastColonAt(f, |a|);
  }

  lemma SplitAtColon(a: string, b: string, f: string)
    requires f == a + ":" + b
    ensures |f| == |a| + 1 + |b| && f[|a|] == ':'
    ensures f[..|a|] == a && f[|a| + 1..] == b
  {
  }

  lemma EndpointRoundTrip(e: Endpoint)
    requires Canonical(e)
    ensures ParseEndpoint(RenderEndpoint(e)) == Some(e) && Token(RenderEndpoint(e))
  {
    PortRoundTrip(e.port);
    LastColonOf(e.addr, RenderPort(e.port));
  }

  lemma PortRoundTrip(n: nat)
    requires n < 0x1_0000_0000
    ensures ParseHex32(RenderPort(n)) == Some(n) && NoColon(RenderPort(n)) && NoSpace(RenderPort(n))
  {
    LeadingZeros(4 - |Hex(n)|, Hex(n));
  }

  lemma {:induction false} FieldsOfToken(t: string)
    requires Token(t)
    ensures Fields(t) == [t]
  {
    if |t| == 1 {
      assert t[1..] == "";
      assert t == [t[0]];
    } else {
      assert Token(t[1..]);
      FieldsOfToken(t[1..]);
      assert [t[0]] + t[1..] == t;
    }
  }

  lemma {:induction false} FieldsOfTokenThen(t: string, rest: string)
    requires Token(t)
    ensures Fields(t + " " + rest) == [t] + Fields(rest)
  {
    var line := t + " " + rest;
    assert line[0] == t[0];
    if |t| == 1 {
      assert line[1..] == " " + rest;
      assert (" " + rest)[1..] == rest;
      assert t == [t[0]];
    } else {
      assert Token(t[1..]);
      FieldsOfTokenThen(t[1..], rest);
      assert line[1..] == t[1..] + " " + rest;
      assert line[1] == t[1];
      assert [t[0]] + t[1..] == t;
    }
  }

  lemma {:induction false} FieldsOfJoin(tokens: seq<string>)
    requires AllTokens(tokens)
    ensures Fields(Join(tokens)) == tokens
  {
    if |tokens| == 1 {
      FieldsOfToken(tokens[0]);
    } else if tokens != [] {
      FieldsOfJoin(tokens[1..]);
      FieldsOfTokenThen(tokens[0], Join(tokens[1..]));
    }
  }

  lemma {:induction false} JoinIsOneLine(tokens: seq<string>)
    requires AllTokens(tokens)
    ensures NoNewline(Join(tokens))
  {
    if |tokens| > 1 {
      JoinIsOneLine(tokens[1..]);
    }
  }

  lemma ColumnsAreTokens(r: Row, d: Dress)
    requires Printable(r) && Plain(d)
    ensures AllTokens(Columns(r, d))
  {
    EndpointRoundTrip(r.local);
    EndpointRoundTrip(r.remote);
    assert forall i | 0 <= i < |r.state| :: HexDigit(r.state[i]) >= 0;
    assert Token(r.state);
  }

  lemma RowRoundTrip(r: Row, d: Dress)
    requires Printable(r) && Plain(d)
    ensures var line := Join(Columns(r, d));
            ParseRow(Fields(line)) == Some(r) && NoNewline(line) && Fields(line) != []
  {
    EndpointRoundTrip(r.local);
    EndpointRoundTrip(r.remote);
    ColumnsAreTokens(r, d);
    FieldsOfJoin(Columns(r, d));
    JoinIsOneLine(Columns(r, d));
  }

  lemma TableSnoc(above: string, line: string, r: Row)
    requires ParseTable(above).Some? && NonBlank(Lines(above)) != []
    requires ParseRow(Fields(line)) == Some(r) && NoNewline(line) && Fields(line) != []
    ensures ParseTable(above + "\n" + line) == Some(ParseTable(above).value + [r])
    ensures NonBlank(Lines(above + "\n" + line)) != []
  {
    OneLine(line);
    LinesAppend(above, line);
    NonBlankSnoc(Lines(above), line);
    ParsedLinesSnoc(NonBlank(Lines(above)), line);
  }

  lemma HeaderOnly(header: string)
    requires IsHeader(header) && NoNewline(header)
    ensures ParseTable(header) == Some([]) && NonBlank(Lines(header)) != []
  {
    OneLine(header);
    NonBlankSnoc([], header);
    assert [] + [header] == [header];
    ParsedLinesSnoc([], header);
  }

  ghost predicate ReadsBack(text: string, rows: seq<Row>) {
    ParseTable(text) == Some(rows) && NonBlank(Lines(text)) != []
  }

  lemma PrintedReadsBack(above: string, rows: seq<Row>, r: Row, d: Dress, text: string, more: seq<Row>)
    requires ReadsBack(above, rows) && Printable(r) && Plain(d)
    requires text == above + "\n" + Join(Columns(r, d)) && more == rows + [r]
    ensures ReadsBack(text, more)
  {
    PrintedLine(above, r, d);
  }

  lemma RowReadsBack(header: string, rows: seq<Row>, dress: seq<Dress>, k: nat)
    requires k < |rows| == |dress| && Printable(rows[k]) && Plain(dress[k])
    requires ReadsBack(Render(header, rows, dress, k), rows[..k])
    ensures ReadsBack(Render(header, rows, dress, k + 1), rows[..k + 1])
  {
    PrintedReadsBack(Render(header, rows, dress, k), rows[..k], rows[k], dress[k],
                     Render(header, rows, dress, k + 1), rows[..k + 1]);
  }

  lemma {:induction false} PrefixReadsBack(header: string, rows: seq<Row>, dress: seq<Dress>, k: nat)
    requires ReadsBack(header, []) && k <= |rows| == |dress| && AllPrintable(rows, dress)
    ensures ReadsBack(Render(header, rows, dress, k), rows[..k])
  {
    if k == 0 {
      assert rows[..k] == [];
      assert Render(header, rows, dress, k) == header;
    } else {
      var n := k - 1;
      assert Printable(rows[n]) && Plain(dress[n]);
      PrefixReadsBack(header, rows, dress, n);
      RowReadsBack(header, rows, dress, n);
    }
  }

  /** Printing any rows under a header and parsing the text gives the same rows in order. */
  lemma TableRoundTrip(header: string, rows: seq<Row>, dress: seq<Dress>)
    requires IsHeader(header) && NoNewline(header)
    requires |dress| == |rows| && AllPrintable(rows, dress)
    ensures ParseTable(Render(header, rows, dress, |rows|)) == Some(rows)
  {
    HeaderOnly(header);
    PrefixReadsBack(header, rows, dress, |rows|);
    assert rows[..|rows|] == rows;
  }

  lemma PrintedLine(above: string, r: Row, d: Dress)
    requires Printable(r) && Plain(d)
    requires ParseTable(above).Some? && NonBlank(Lines(above)) != []
    ensures var text := above + "\n" + Join(Columns(r, d));
            ParseTable(text) == Some(ParseTable(above).value + [r]) && NonBlank(Lines(text)) != []
  {
    RowRoundTrip(r, d);
    TableSnoc(above, Join(Columns(r, d)), r);
  }

  // ---- the printer covers everything the parser accepts ----

  lemma {:induction false} FieldsAreTokens(line: string)
    ensures AllTokens(Fields(line))
  {
    if line != "" {
      FieldsAreTokens(line[1..]);
      var rest := Fields(line[1..]);
      if !IsSpace(line[0]) && rest != [] {
        assert Token(rest[0]);
      }
    }
  }

  lemma ParsedEndpointIsCanonical(field: string)
    requires Token(field) && ParseEndpoint(field).Some?
    ensures Canonical(ParseEndpoint(field).value)
  {
    var i := LastColon(field);
    var addr := ToUpper(field[..i]);
    assert forall c :: UpperChar(UpperChar(c)) == UpperChar(c) && (IsSpace(UpperChar(c)) <==> IsSpace(c));
    assert NoSpace(addr) && ToUpper(addr) == addr;
    if |addr| == 32 {
      assert NoSpace(addr[24..]) && ToUpper(addr[24..]) == addr[24..];
    }
  }

  /** So the round trip holds on exactly the rows that can come out of a table. */
  lemma ParsedRowIsPrintable(line: string)
    requires ParseRow(Fields(line)).Some?
    ensures Printable(ParseRow(Fields(line)).value)
  {
    FieldsAreTokens(line);
    ParsedEndpointIsCanonical(Fields(line)[1]);
    ParsedEndpointIsCanonical(Fields(line)[2]);
  }
}
