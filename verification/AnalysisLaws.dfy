/** Laws of the whole pass: other clients do not matter, the first-index lookup does not
    matter, and every client line is counted once. */
module AnalysisLaws {
  import opened Basics
  import opened TraceFormat
  import opened Correlation
  import opened Analysis
  import SetSum

  // ----------------------------------------------- other clients are invisible

  predicate Visible(w: Window, line: string, c: string) {
    Parsed(w, line).side.SERVER? || Parsed(w, line).hostname == c
  }

  /** The log with every line of the other clients deleted. */
  function OnlyFor(w: Window, data: seq<string>, c: string): (r: seq<string>)
    ensures forall l | l in r :: l in data
    decreases |data|
  {
    if data == [] then []
    else if Visible(w, data[0], c) then [data[0]] + OnlyFor(w, data[1..], c)
    else OnlyFor(w, data[1..], c)
  }

  lemma {:induction false} OnlyForConcat(w: Window, a: seq<string>, b: seq<string>, c: string)
    ensures OnlyFor(w, a + b, c) == OnlyFor(w, a, c) + OnlyFor(w, b, c)
    decreases |a|
  {
    if a == [] {
      assert a + b == b;
    } else {
      OnlyForConcat(w, a[1..], b, c);
      assert (a + b)[1..] == a[1..] + b;
    }
  }

  lemma {:induction false} ScanOnlyFor(w: Window, start: int, data: seq<string>, c: string)
    requires Sorted(w, data)
    ensures Scan(w, start, OnlyFor(w, data, c)) == Scan(w, start, data)
    decreases |data|
  {
    if data == [] {
    } else if Breaks(w, start, data[0]) {
      var f := OnlyFor(w, data, c);
      assert f != [] ==> f[0] in data;
    } else {
      ScanOnlyFor(w, start, data[1..], c);
      if Visible(w, data[0], c) {
        assert OnlyFor(w, data, c)[1..] == OnlyFor(w, data[1..], c);
      }
    }
  }

  /** What follows the first occurrence of `line`. */
  function After(data: seq<string>, line: string): (r: seq<string>)
    requires line in data
    ensures r == data[IndexOf(data, line) + 1..]
    decreases |data|
  {
    if data[0] == line then data[1..] else After(data[1..], line)
  }

  lemma {:induction false} AfterOnlyFor(w: Window, data: seq<string>, line: string, c: string)
    requires line in data && Visible(w, line, c)
    ensures line in OnlyFor(w, data, c)
    ensures After(OnlyFor(w, data, c), line) == OnlyFor(w, After(data, line), c)
    decreases |data|
  {
    var f := OnlyFor(w, data, c);
    if data[0] == line {
      assert f[0] == line && f[1..] == OnlyFor(w, data[1..], c);
    } else {
      AfterOnlyFor(w, data[1..], line, c);
      if Visible(w, data[0], c) {
        assert f[0] == data[0] && f[1..] == OnlyFor(w, data[1..], c);
      }
    }
  }

  lemma ConnAtOnlyFor(w: Window, data: seq<string>, line: string, c: string)
    requires Sorted(w, data) && line in data && ClientLine(w, line, c)
    ensures line in OnlyFor(w, data, c) && ConnAt(w, OnlyFor(w, data, c), line) == ConnAt(w, data, line)
  {
    AfterOnlyFor(w, data, line, c);
    ScanOnlyFor(w, Parsed(w, line).time, After(data, line), c);
  }

  /** How many of the first n lines stay. */
  function Kept(w: Window, data: seq<string>, n: nat, c: string): (k: nat)
    requires n <= |data|
    ensures k == |OnlyFor(w, data[..n], c)| <= |OnlyFor(w, data, c)|
  {
    OnlyForConcat(w, data[..n], data[n..], c);
    assert data == data[..n] + data[n..];
    |OnlyFor(w, data[..n], c)|
  }

  lemma KeptNext(w: Window, data: seq<string>, n: nat, c: string)
    requires 0 < n <= |data|
    ensures Kept(w, data, n, c) == Kept(w, data, n - 1, c) + if Visible(w, data[n - 1], c) then 1 else 0
    ensures Visible(w, data[n - 1], c) ==> OnlyFor(w, data, c)[Kept(w, data, n - 1, c)] == data[n - 1]
  {
    var line := data[n - 1];
    assert [line][1..] == [];
    assert OnlyFor(w, [line], c) == if Visible(w, line, c) then [line] else [];
    OnlyForConcat(w, data[..n - 1], [line], c);
    assert data[..n] == data[..n - 1] + [line];
    OnlyForConcat(w, data[..n], data[n..], c);
    assert data == data[..n] + data[n..];
  }

  lemma {:induction false} ConnsOnlyFor(w: Window, data: seq<string>, n: nat, c: string)
    requires Sorted(w, data) && n <= |data|
    ensures ConnsOf(w, OnlyFor(w, data, c), Kept(w, data, n, c), c) == ConnsOf(w, data, n, c)
  {
    if n > 0 {
      KeptNext(w, data, n, c);
      ConnsOnlyFor(w, data, n - 1, c);
      if ClientLine(w, data[n - 1], c) { ConnAtOnlyFor(w, data, data[n - 1], c); }
    } else {
      assert data[..0] == [];
    }
  }

  /** Main result: on a sorted log, whatever the thresholds, deleting all lines of all other
      clients leaves the records of client c unchanged, although those lines can end a scan. */
  lemma OtherClientsInvisible(w: Window, data: seq<string>, c: string)
    requires Sorted(w, data)
    ensures ConnsOf(w, OnlyFor(w, data, c), |OnlyFor(w, data, c)|, c) == ConnsOf(w, data, |data|, c)
  {
    assert data[..|data|] == data;
    ConnsOnlyFor(w, data, |data|, c);
  }

  // ------------------------------------------------------ first-index lookup

  /** The records if each scan started right after its own line. */
  function ConnsFromOwnLine(w: Window, data: seq<string>, n: nat, c: string): seq<Conn>
    requires n <= |data|
  {
    if n == 0 then []
    else
      var t := Parsed(w, data[n - 1]).time;
      ConnsFromOwnLine(w, data, n - 1, c) +
      if ClientLine(w, data[n - 1], c) then [Conn(t, Scan(w, t, data[n..]))] else []
  }

  /** No line at distance zero is ever accepted. */
  predicate IgnoresDistanceZero(w: Window) {
    w.min >= 0 || w.max <= 0
  }

  lemma {:induction false} SkipEqualTimes(w: Window, data: seq<string>, from: nat, to: nat, t: int)
    requires Sorted(w, data) && from <= to <= |data| && IgnoresDistanceZero(w)
    requires forall k | from <= k < to :: Parsed(w, data[k]).time == t
    requires forall k | to <= k < |data| :: Parsed(w, data[k]).time >= t
    ensures Scan(w, t, data[from..]) == Scan(w, t, data[to..])
    decreases |data| - from
  {
    if from < to {
      SkipEqualTimes(w, data, from + 1, to, t);
      assert data[from..][1..] == data[from + 1..];
    }
  }

  lemma {:induction false} FirstIndexHarmless(w: Window, data: seq<string>, n: nat, c: string)
    requires Sorted(w, data) && n <= |data| && IgnoresDistanceZero(w)
    ensures ConnsOf(w, data, n, c) == ConnsFromOwnLine(w, data, n, c)
  {
    if n > 0 {
      FirstIndexHarmless(w, data, n - 1, c);
      var line := data[n - 1];
      SkipEqualTimes(w, data, IndexOf(data, line) + 1, n, Parsed(w, line).time);
    }
  }

  /** A client line, a server line and the client line again, all at one time. */
  lemma DuplicateDiffers(w: Window, x: string, y: string)
    requires !IgnoresDistanceZero(w)
    requires Parsed(w, x) == Entry(CLIENT, "a", 0) && Parsed(w, y) == Entry(SERVER, "b", 0)
    ensures Sorted(w, [x, y, x])
    ensures ConnsOf(w, [x, y, x], 3, "a") != ConnsFromOwnLine(w, [x, y, x], 3, "a")
  {
    var data := [x, y, x];
    assert data[0 + 1..][0] == y && data[3..] == [];
    var found := Scan(w, 0, data[1..]);
    assert HitAt(w, 0, y, "b") && "b" in found;
    assert |ConnsOf(w, data, 1, "a")| == |ConnsFromOwnLine(w, data, 1, "a")| == 1;
    assert ConnsOf(w, data, 2, "a") == ConnsOf(w, data, 1, "a");
    assert ConnsFromOwnLine(w, data, 2, "a") == ConnsFromOwnLine(w, data, 1, "a");
    assert IndexOf(data, x) == 0;
    assert ConnsOf(w, data, 3, "a")[1] == Conn(0, found);
    assert ConnsFromOwnLine(w, data, 3, "a")[1] == Conn(0, map[]);
  }

  ghost predicate FirstIndexIsHarmless(w: Window) {
    forall data: seq<string>, c: string | Sorted(w, data) ::
      ConnsOf(w, data, |data|, c) == ConnsFromOwnLine(w, data, |data|, c)
  }

  lemma FirstIndexExactly(w: Window, x: string, y: string)
    requires w.parse(x) == Some(Entry(CLIENT, "a", 0)) && w.parse(y) == Some(Entry(SERVER, "b", 0))
    ensures FirstIndexIsHarmless(w) <==> IgnoresDistanceZero(w)
  {
    if IgnoresDistanceZero(w) {
      forall data: seq<string>, c: string | Sorted(w, data)
        ensures ConnsOf(w, data, |data|, c) == ConnsFromOwnLine(w, data, |data|, c)
      {
        FirstIndexHarmless(w, data, |data|, c);
      }
    } else {
      DuplicateDiffers(w, x, y);
    }
  }

  lemma LineFor(e: Entry) returns (line: string)
    requires |e.hostname| < HOSTNAME_SPACE && ';' !in e.hostname && '\n' !in e.hostname && e.time == 0
    ensures ConnectionParams(line) == Some(e)
  {
    var r := Record(e.side.SERVER?, e.hostname, e.time, e.time);
    RecordRoundTrip(r);
    line := BuildTracePackage(r);
  }

  /** Main result: looking a line up by its text instead of its position is harmless on all
      sorted logs exactly for thresholds that ignore distance zero. */
  lemma FirstIndexHarmlessExactly(min: int, max: int)
    ensures FirstIndexIsHarmless(Pynalyzer(min, max)) <==> min >= 0 || max <= 0
  {
    var x := LineFor(Entry(CLIENT, "a", 0));
    var y := LineFor(Entry(SERVER, "b", 0));
    FirstIndexExactly(Pynalyzer(min, max), x, y);
  }

  // --------------------------------------------- the records, told from the log

  predicate IsClientLine(parse: string -> Option<Entry>, line: string, c: string) {
    parse(line).Some? && parse(line).value.side.CLIENT? && parse(line).value.hostname == c
  }

  /** The record of a client line: its time, and what is found after the first line of its text. */
  ghost predicate IsRecord(parse: string -> Option<Entry>, min: int, max: int, data: seq<string>, line: string, conn: Conn)
    requires line in data && parse(line).Some?
  {
    conn.time == parse(line).value.time && Finds(parse, min, max, conn.time, data[IndexOf(data, line) + 1..], conn.servers)
  }

  /** One record per line of client c, in the order of the lines. */
  ghost predicate AreRecords(parse: string -> Option<Entry>, min: int, max: int, data: seq<string>, n: nat, c: string, conns: seq<Conn>)
    requires n <= |data|
  {
    if n == 0 then conns == []
    else if IsClientLine(parse, data[n - 1], c) then
      && conns != [] && IsRecord(parse, min, max, data, data[n - 1], conns[|conns| - 1])
      && AreRecords(parse, min, max, data, n - 1, c, conns[..|conns| - 1])
    else AreRecords(parse, min, max, data, n - 1, c, conns)
  }

  lemma {:induction false} ConnsAreRecords(w: Window, data: seq<string>, n: nat, c: string)
    requires n <= |data| && AllParse(w, data)
    ensures AreRecords(w.parse, w.min, w.max, data, n, c, ConnsOf(w, data, n, c))
  {
    if n > 0 {
      var line := data[n - 1];
      ConnsAreRecords(w, data, n - 1, c);
      assert w.parse(line).Some? && (ClientLine(w, line, c) <==> IsClientLine(w.parse, line, c));
      if ClientLine(w, line, c) {
        var conns := ConnsOf(w, data, n, c);
        assert conns[..|conns| - 1] == ConnsOf(w, data, n - 1, c);
        ScanFindsAll(w, Parsed(w, line).time, data[IndexOf(data, line) + 1..]);
      } else {
        assert ConnsOf(w, data, n, c) == ConnsOf(w, data, n - 1, c);
      }
    }
  }

  /** The analyzer's records with its two thresholds as they are given. */
  lemma PynalyzerRecords(min: int, max: int, data: seq<string>, c: string)
    requires LogParses(data)
    ensures AreRecords(ConnectionParams, min, max, data, |data|, c, ConnsOf(Pynalyzer(min, max), data, |data|, c))
  {
    LogParsesMeaning(min, max, data);
    ConnsAreRecords(Pynalyzer(min, max), data, |data|, c);
  }

  // ------------------------------------------------------------ conservation

  function ClientLines(w: Window, data: seq<string>, n: nat): nat
    requires n <= |data|
  {
    if n == 0 then 0 else ClientLines(w, data, n - 1) + if Parsed(w, data[n - 1]).side.CLIENT? then 1 else 0
  }

  lemma {:induction false} ConnsSum(w: Window, data: seq<string>, n: nat, clients: set<string>)
    requires n <= |data|
    requires forall i | 0 <= i < n && Parsed(w, data[i]).side.CLIENT? :: Parsed(w, data[i]).hostname in clients
    ensures SetSum.Sum(clients, c => |ConnsOf(w, data, n, c)|) == ClientLines(w, data, n)
  {
    if n == 0 {
      SetSum.SumZero(clients, c => |ConnsOf(w, data, n, c)|);
    } else {
      ConnsSum(w, data, n - 1, clients);
      var e := Parsed(w, data[n - 1]);
      SetSum.SumRaised(clients, c => |ConnsOf(w, data, n - 1, c)|, c => |ConnsOf(w, data, n, c)|,
                if e.side.CLIENT? then {e.hostname} else {});
    }
  }

  function Length(connections: map<string, seq<Conn>>, c: string): nat {
    if c in connections then |connections[c]| else 0
  }

  /** Every client line ends up in exactly one record list. */
  lemma ClientLinesConserved(w: Window, data: seq<string>, connections: map<string, seq<Conn>>)
    requires Describes(w, data, |data|, connections)
    ensures SetSum.Sum(connections.Keys, c => Length(connections, c)) == ClientLines(w, data, |data|)
  {
    forall i | 0 <= i < |data| && Parsed(w, data[i]).side.CLIENT? ensures Parsed(w, data[i]).hostname in connections {
      assert ClientLine(w, data[i], Parsed(w, data[i]).hostname);
    }
    ConnsSum(w, data, |data|, connections.Keys);
    SetSum.SumRaised(connections.Keys, c => |ConnsOf(w, data, |data|, c)|, c => Length(connections, c), {});
  }

  /** Every recorded probability is proper. */
  lemma {:induction false} ConnsAreProper(w: Window, data: seq<string>, n: nat, c: string, i: nat, sv: string)
    requires n <= |data| && i < |ConnsOf(w, data, n, c)| && sv in ConnsOf(w, data, n, c)[i].servers
    ensures 0.0 < ConnsOf(w, data, n, c)[i].servers[sv].prob < 1.0
  {
    var prefix := ConnsOf(w, data, n - 1, c);
    if i < |prefix| {
      ConnsAreProper(w, data, n - 1, c, i, sv);
    } else {
      var line := data[n - 1];
      ScanIsProper(w, Parsed(w, line).time, data[IndexOf(data, line) + 1..], sv);
    }
  }

  // ----------------------------------------------------- from proxy to analyzer

  lemma {:induction false} ParsedOneByOne(lines: seq<string>, entries: seq<Entry>)
    requires ParseLines(lines) == Some(entries)
    ensures |lines| == |entries|
    ensures forall i | 0 <= i < |lines| :: ConnectionParams(lines[i]) == Some(entries[i])
    decreases |lines|
  {
    if lines != [] {
      ParsedOneByOne(lines[1..], entries[1..]);
    }
  }

  lemma {:induction false} EntriesAt(rs: seq<Record>)
    ensures |Entries(rs)| == |rs| && forall i | 0 <= i < |rs| :: Entries(rs)[i] == EntryOf(rs[i])
    decreases |rs|
  {
    if rs != [] {
      EntriesAt(rs[1..]);
    }
  }

  predicate NotLater(a: Record, b: Record) {
    a.sec < b.sec || (a.sec == b.sec && a.usec <= b.usec)
  }

  /** A trace that is delivered in the order of its clock readings gives the analyzer a log that
      parses and is sorted: the hypotheses above are met. */
  lemma DeliveredTraceIsSorted(min: int, max: int, ds: seq<Datagram>, rs: seq<Record>)
    requires (forall r | r in rs :: ValidRecord(r)) && Carries(ds, rs)
    requires forall i, j | 0 <= i < j < |rs| :: NotLater(rs[i], rs[j])
    ensures AllParse(Pynalyzer(min, max), Lines(AppendedAll(ds)))
    ensures Sorted(Pynalyzer(min, max), Lines(AppendedAll(ds)))
  {
    var lines, w := Lines(AppendedAll(ds)), Pynalyzer(min, max);
    PipelineRoundTrip(ds, rs);
    ParsedOneByOne(lines, Entries(rs));
    EntriesAt(rs);
    forall i, j | 0 <= i < j < |lines| ensures Parsed(w, lines[i]).time <= Parsed(w, lines[j]).time {
      assert rs[i] in rs && rs[j] in rs && NotLater(rs[i], rs[j]);
      assert Parsed(w, lines[i]) == EntryOf(rs[i]) && Parsed(w, lines[j]) == EntryOf(rs[j]);
    }
  }
}
