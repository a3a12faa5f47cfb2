/** The pass over the whole log: one record per client line, each scanned forward from the
    first line with the same text. */
module Analysis {
  import opened Basics
  import opened TraceFormat
  import opened Correlation

  /** Python's list.index. */
  function IndexOf(data: seq<string>, line: string): (k: nat)
    requires line in data
    ensures k < |data| && data[k] == line && line !in data[..k]
    decreases |data|
  {
    if data[0] == line then 0 else 1 + IndexOf(data[1..], line)
  }

  predicate ClientLine(w: Window, line: string, c: string) {
    Parsed(w, line).side.CLIENT? && Parsed(w, line).hostname == c
  }

  /** The record made for one client line. */
  function ConnAt(w: Window, data: seq<string>, line: string): Conn
    requires line in data
  {
    var t := Parsed(w, line).time;
    Conn(t, Scan(w, t, data[IndexOf(data, line) + 1..]))
  }

  /** The records of client c for the first n lines, in order. */
  function ConnsOf(w: Window, data: seq<string>, n: nat, c: string): seq<Conn>
    requires n <= |data|
  {
    if n == 0 then []
    else ConnsOf(w, data, n - 1, c) + if ClientLine(w, data[n - 1], c) then [ConnAt(w, data, data[n - 1])] else []
  }

  ghost predicate HasClient(w: Window, data: seq<string>, n: nat, c: string)
    requires n <= |data|
  {
    exists i | 0 <= i < n :: ClientLine(w, data[i], c)
  }

  /** The dictionary `connections` after the first n lines. */
  ghost predicate Describes(w: Window, data: seq<string>, n: nat, connections: map<string, seq<Conn>>)
    requires n <= |data|
  {
    && (forall c :: c in connections <==> HasClient(w, data, n, c))
    && (forall c | c in connections :: connections[c] == ConnsOf(w, data, n, c))
  }

  lemma {:induction false} NoClientNoConns(w: Window, data: seq<string>, n: nat, c: string)
    requires n <= |data| && !HasClient(w, data, n, c)
    ensures ConnsOf(w, data, n, c) == []
  {
    if n > 0 {
      assert !ClientLine(w, data[n - 1], c);
      NoClientNoConns(w, data, n - 1, c);
    }
  }

  function WithConn(connections: map<string, seq<Conn>>, c: string, conn: Conn): map<string, seq<Conn>> {
    connections[c := (if c in connections then connections[c] else []) + [conn]]
  }

  function AfterLine(w: Window, data: seq<string>, line: string, connections: map<string, seq<Conn>>): map<string, seq<Conn>>
    requires line in data
  {
    var e := Parsed(w, line);
    if e.side.CLIENT? then WithConn(connections, e.hostname, ConnAt(w, data, line)) else connections
  }

  lemma DescribesNext(w: Window, data: seq<string>, n: nat, connections: map<string, seq<Conn>>)
    requires n < |data| && Describes(w, data, n, connections)
    ensures Describes(w, data, n + 1, AfterLine(w, data, data[n], connections))
  {
    var after := AfterLine(w, data, data[n], connections);
    forall c ensures HasClient(w, data, n + 1, c) <==> HasClient(w, data, n, c) || ClientLine(w, data[n], c) {
      if ClientLine(w, data[n], c) { assert HasClient(w, data, n + 1, c); }
    }
    forall c | c in after ensures after[c] == ConnsOf(w, data, n + 1, c) {
      if c !in connections { NoClientNoConns(w, data, n, c); }
    }
  }

  /** The body of the pass: one line. It fails only on a log with a line that does not parse. */
  method AnalyzeLine(w: Window, data: seq<string>, i: string, before: map<string, seq<Conn>>)
    returns (r: Option<map<string, seq<Conn>>>)
    requires i in data
    ensures r.Some? ==> w.parse(i).Some? && r.value == AfterLine(w, data, i, before)
    ensures r.None? ==> !AllParse(w, data)
  {
    var connections := before;
    var parsed := w.parse(i);
    if parsed.None? { return None; }
    var startConn := parsed.value;
    if startConn.side == CLIENT {
      var c := startConn.hostname;
      if c !in connections {
        connections := connections[c := []];
      }
      var servers := AnalyzeForward(w, startConn, IndexOf(data, i) + 1, data);
      if servers.None? { return None; }
      connections := connections[c := connections[c] + [Conn(startConn.time, servers.value)]];
    }
    return Some(connections);
  }

  /** The analyzer's main pass. It fails exactly on a log with a line that does not parse. */
  method Analyze(w: Window, data: seq<string>) returns (r: Option<map<string, seq<Conn>>>)
    ensures r.Some? <==> AllParse(w, data)
    ensures r.Some? ==> Describes(w, data, |data|, r.value)
  {
    var connections: map<string, seq<Conn>> := map[];
    var ith := 0;
    while ith < |data|
      invariant 0 <= ith <= |data|
      invariant forall k | 0 <= k < ith :: w.parse(data[k]).Some?
      invariant Describes(w, data, ith, connections)
    {
      var next := AnalyzeLine(w, data, data[ith], connections);
      if next.None? { return None; }
      DescribesNext(w, data, ith, connections);
      connections := next.value;
      ith := ith + 1;
    }
    return Some(connections);
  }
}
