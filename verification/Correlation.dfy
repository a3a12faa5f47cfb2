/** The windowed forward scan of the analyzer, and what it means on a time-sorted log. */
module Correlation {
  import opened Basics
  import opened TraceFormat
  import RealFacts

  /** THRESHOLD_MIN and THRESHOLD_MAX, any integers, and the line parser: nothing about the
      scan depends on how a line is parsed. The analyzer's own parser is ConnectionParams. */
  datatype Window = Window(min: int, max: int, parse: string -> Option<Entry>)

  /** The analyzer as it is: its thresholds are globals that the command line sets. */
  function Pynalyzer(min: int, max: int): Window {
    Window(min, max, ConnectionParams)
  }

  /** The pair stored per server: probability and time of its first accepted line. */
  datatype Hit = Hit(prob: real, time: int)

  datatype Conn = Conn(time: int, servers: map<string, Hit>)

  const EULER: real := 2.718281828459045

  // ------------------------------------------------------------ probability

  /** None is Python's False. The division is guarded for every pair of thresholds. */
  function CalcProb(w: Window, time1: int, time2: int, metClients: real): Option<real> {
    var timeDistance := time2 - time1;
    if time1 > time2 || timeDistance <= w.min then None
    else if timeDistance <= w.max then
      Some(1.0 - (timeDistance - w.min) as real / (w.max - w.min) as real)
    else Some(0.0)
  }

  predicate Truthy(prob: Option<real>) {
    prob.Some? && prob.value != 0.0
  }

  /** Strictly between the thresholds, and not in the past. */
  predicate InWindow(w: Window, start: int, time: int) {
    start <= time && w.min < time - start < w.max
  }

  function Prob(w: Window, start: int, time: int): real
    requires InWindow(w, start, time)
  {
    (w.max - (time - start)) as real / (w.max - w.min) as real
  }

  /** A line counts exactly inside the open window, and then with a proper probability:
      the check for values that are not positive never fires. */
  lemma CalcProbMeaning(w: Window, start: int, time: int, metClients: real)
    ensures Truthy(CalcProb(w, start, time, metClients)) <==> InWindow(w, start, time)
    ensures InWindow(w, start, time) ==>
              CalcProb(w, start, time, metClients) == Some(Prob(w, start, time)) && 0.0 < Prob(w, start, time) < 1.0
  {
    var d := time - start;
    if start <= time && w.min < d <= w.max {
      var b := (w.max - w.min) as real;
      var x := (w.max - d) as real;
      RealFacts.DivComplement((d - w.min) as real, b);
      assert b - (d - w.min) as real == x;
      RealFacts.DivBound(x, b, 0.0);
      RealFacts.DivBound(x, b, 1.0);
    }
  }

  lemma LaterIsLessLikely(w: Window, start: int, time: int, later: int)
    requires InWindow(w, start, time) && InWindow(w, start, later)
    ensures time <= later <==> Prob(w, start, later) <= Prob(w, start, time)
  {
    var b := (w.max - w.min) as real;
    var x, y := (w.max - (time - start)) as real, (w.max - (later - start)) as real;
    RealFacts.DivOrder(y, x, b);
  }

  // ------------------------------------------------------------------- scan

  /** A line as parsed; the value for a line that does not parse is never used by the code. */
  function Parsed(w: Window, line: string): Entry {
    match w.parse(line)
    case Some(e) => e
    case None => Entry(SERVER, "", 0)
  }

  predicate AllParse(w: Window, data: seq<string>) {
    forall i | 0 <= i < |data| :: w.parse(data[i]).Some?
  }

  predicate Breaks(w: Window, start: int, line: string) {
    Parsed(w, line).time - start > w.max
  }

  predicate HitAt(w: Window, start: int, line: string, host: string) {
    Parsed(w, line).side.SERVER? && Parsed(w, line).hostname == host && InWindow(w, start, Parsed(w, line).time)
  }

  function HitOf(w: Window, start: int, line: string): Hit
    requires InWindow(w, start, Parsed(w, line).time)
  {
    Hit(Prob(w, start, Parsed(w, line).time), Parsed(w, line).time)
  }

  /** The servers found scanning `data` up to its first line beyond the window, first hits kept. */
  function Scan(w: Window, start: int, data: seq<string>): map<string, Hit>
    decreases |data|
  {
    if data == [] || Breaks(w, start, data[0]) then map[]
    else
      var rest := Scan(w, start, data[1..]);
      var host := Parsed(w, data[0]).hostname;
      if HitAt(w, start, data[0], host) then rest[host := HitOf(w, start, data[0])] else rest
  }

  method AnalyzeForward(w: Window, startConn: Entry, startIdx: nat, data: seq<string>)
    returns (r: Option<map<string, Hit>>)
    ensures r.Some? ==> r.value == Scan(w, startConn.time, data[if startIdx < |data| then startIdx else |data|..])
    ensures r.None? ==> !AllParse(w, data)
  {
    ghost var lo := if startIdx < |data| then startIdx else |data|;
    ghost var all := Scan(w, startConn.time, data[lo..]);
    var servers: map<string, Hit> := map[];
    var metClients := 1.0;
    var j := if startIdx < |data| then startIdx else |data|;
    while j < |data|
      invariant lo <= j <= |data|
      invariant all == Scan(w, startConn.time, data[j..]) + servers
    {
      var parsed := w.parse(data[j]);
      if parsed.None? { return None; }
      var forwConn := parsed.value;
      assert data[j..][0] == data[j] && data[j..][1..] == data[j + 1..];
      CalcProbMeaning(w, startConn.time, forwConn.time, metClients);
      if forwConn.time - startConn.time > w.max { break; }
      if forwConn.side == CLIENT && forwConn.time - startConn.time > w.min {
        metClients := metClients * EULER;
      } else if forwConn.side == SERVER {
        var prob := CalcProb(w, startConn.time, forwConn.time, metClients);
        if Truthy(prob) {
          if prob.value <= 0.0 {
            assert false;
            break;
          }
          if forwConn.hostname !in servers {
            servers := servers[forwConn.hostname := Hit(prob.value, forwConn.time)];
          }
        }
      }
      j := j + 1;
    }
    return Some(servers);
  }

  // ------------------------------------------- what a scan finds, declaratively

  /** Position of the first in-window line of `host`; |data| if there is none. */
  function FirstHit(w: Window, start: int, data: seq<string>, host: string): (k: nat)
    ensures k <= |data|
    ensures k < |data| ==> HitAt(w, start, data[k], host)
    ensures forall j | 0 <= j < k :: !HitAt(w, start, data[j], host)
    decreases |data|
  {
    if data == [] || HitAt(w, start, data[0], host) then 0 else 1 + FirstHit(w, start, data[1..], host)
  }

  /** Position of the first line beyond the window; |data| if there is none. */
  function BreakPoint(w: Window, start: int, data: seq<string>): (k: nat)
    ensures k <= |data|
    ensures k < |data| ==> Breaks(w, start, data[k])
    ensures forall j | 0 <= j < k :: !Breaks(w, start, data[j])
    decreases |data|
  {
    if data == [] || Breaks(w, start, data[0]) then 0 else 1 + BreakPoint(w, start, data[1..])
  }

  /** On any log: a server is found exactly when its first in-window line precedes the break. */
  lemma {:induction false} ScanFinds(w: Window, start: int, data: seq<string>, host: string)
    ensures host in Scan(w, start, data) <==> FirstHit(w, start, data, host) < BreakPoint(w, start, data)
    ensures var k := FirstHit(w, start, data, host);
            host in Scan(w, start, data) ==> k < |data| && Scan(w, start, data)[host] == HitOf(w, start, data[k])
    decreases |data|
  {
    if data != [] {
      ScanFinds(w, start, data[1..], host);
    }
  }

  ghost predicate SomeHit(w: Window, start: int, data: seq<string>, host: string) {
    exists j | 0 <= j < |data| :: HitAt(w, start, data[j], host)
  }

  ghost predicate Sorted(w: Window, data: seq<string>) {
    forall i, j | 0 <= i < j < |data| :: Parsed(w, data[i]).time <= Parsed(w, data[j]).time
  }

  /** The first in-window line of `host`, if any, comes before the first line beyond the window. */
  predicate BeforeBreak(w: Window, start: int, data: seq<string>, host: string) {
    var k := FirstHit(w, start, data, host);
    k == |data| || k < BreakPoint(w, start, data)
  }

  /** The early break loses no server exactly when that holds of every server. */
  lemma BreakIsHarmlessExactly(w: Window, start: int, data: seq<string>)
    ensures (forall host :: host in Scan(w, start, data) <==> SomeHit(w, start, data, host)) <==>
            (forall host :: BeforeBreak(w, start, data, host))
  {
    forall host
      ensures (host in Scan(w, start, data) <==> SomeHit(w, start, data, host)) <==> BeforeBreak(w, start, data, host)
    {
      ScanFinds(w, start, data, host);
      SomeHitMeaning(w, start, data, host);
    }
  }

  lemma SomeHitMeaning(w: Window, start: int, data: seq<string>, host: string)
    ensures SomeHit(w, start, data, host) <==> FirstHit(w, start, data, host) < |data|
  {
  }

  /** Main result for one scan: on a sorted log it returns exactly the servers with some line in
      the window, each with its largest probability and its earliest time. */
  lemma SortedScan(w: Window, start: int, data: seq<string>, host: string)
    requires Sorted(w, data)
    ensures host in Scan(w, start, data) <==> SomeHit(w, start, data, host)
    ensures host in Scan(w, start, data) ==>
              forall j | 0 <= j < |data| && HitAt(w, start, data[j], host) ::
                && HitOf(w, start, data[j]).prob <= Scan(w, start, data)[host].prob
                && Scan(w, start, data)[host].time <= HitOf(w, start, data[j]).time
    ensures host in Scan(w, start, data) ==>
              exists j | 0 <= j < |data| && HitAt(w, start, data[j], host) ::
                Scan(w, start, data)[host] == HitOf(w, start, data[j])
  {
    ScanFinds(w, start, data, host);
    var k, b := FirstHit(w, start, data, host), BreakPoint(w, start, data);
    if k < |data| {
      assert HitAt(w, start, data[k], host);
      forall j | 0 <= j < |data| && HitAt(w, start, data[j], host)
        ensures HitOf(w, start, data[j]).prob <= HitOf(w, start, data[k]).prob
        ensures HitOf(w, start, data[k]).time <= HitOf(w, start, data[j]).time
      {
        LaterIsLessLikely(w, start, Parsed(w, data[k]).time, Parsed(w, data[j]).time);
      }
    }
  }

  // -------------------------------------- the same, without the scan's own words

  /** The line is a connection of server `host` at time u, strictly inside the window of t. */
  predicate Accepted(parse: string -> Option<Entry>, min: int, max: int, t: int, line: string, host: string, u: int) {
    parse(line) == Some(Entry(SERVER, host, u)) && t <= u && min < u - t < max
  }

  /** Line j is the first such line, and no line before it is later than t + max. */
  ghost predicate FirstAccepted(parse: string -> Option<Entry>, min: int, max: int, t: int, data: seq<string>, j: int, host: string, u: int) {
    && 0 <= j < |data| && Accepted(parse, min, max, t, data[j], host, u)
    && (forall i, v | 0 <= i < j :: !Accepted(parse, min, max, t, data[i], host, v))
    && (forall i | 0 <= i < j && parse(data[i]).Some? :: parse(data[i]).value.time <= t + max)
  }

  ghost predicate SomeFirst(parse: string -> Option<Entry>, min: int, max: int, t: int, data: seq<string>, host: string) {
    exists j, u :: FirstAccepted(parse, min, max, t, data, j, host, u)
  }

  /** The probability falls linearly with the distance, from one at min to zero at max. */
  function Falling(min: int, max: int, distance: int): real
    requires min < max
  {
    (max - distance) as real / (max - min) as real
  }

  /** A dictionary with exactly these servers: each with the time of that line and the probability of
      its distance. */
  ghost predicate Finds(parse: string -> Option<Entry>, min: int, max: int, t: int, data: seq<string>, servers: map<string, Hit>) {
    && (forall host :: host in servers <==> SomeFirst(parse, min, max, t, data, host))
    && (forall j, host, u | FirstAccepted(parse, min, max, t, data, j, host, u) && host in servers ::
          servers[host] == Hit(Falling(min, max, u - t), u))
  }

  lemma FirstAcceptedIs(w: Window, t: int, data: seq<string>, j: int, host: string, u: int)
    requires AllParse(w, data)
    ensures FirstAccepted(w.parse, w.min, w.max, t, data, j, host, u) <==>
            && 0 <= j == FirstHit(w, t, data, host) < BreakPoint(w, t, data)
            && u == Parsed(w, data[j]).time
  {
    var k, b := FirstHit(w, t, data, host), BreakPoint(w, t, data);
    forall i, v | 0 <= i < |data|
      ensures Accepted(w.parse, w.min, w.max, t, data[i], host, v) <==> HitAt(w, t, data[i], host) && v == Parsed(w, data[i]).time
    {
      assert w.parse(data[i]).Some?;
    }
    forall i | 0 <= i < |data| ensures Breaks(w, t, data[i]) <==> w.parse(data[i]).value.time > t + w.max {
    }
    if FirstAccepted(w.parse, w.min, w.max, t, data, j, host, u) {
      assert HitAt(w, t, data[j], host) && k <= j;
      assert k < j ==> Accepted(w.parse, w.min, w.max, t, data[k], host, Parsed(w, data[k]).time);
    }
  }

  lemma FoundExactly(w: Window, t: int, data: seq<string>, host: string)
    requires AllParse(w, data)
    ensures host in Scan(w, t, data) <==> SomeFirst(w.parse, w.min, w.max, t, data, host)
  {
    ScanFinds(w, t, data, host);
    if host in Scan(w, t, data) {
      var k := FirstHit(w, t, data, host);
      FirstAcceptedIs(w, t, data, k, host, Parsed(w, data[k]).time);
    }
    if j, u :| FirstAccepted(w.parse, w.min, w.max, t, data, j, host, u) {
      FirstAcceptedIs(w, t, data, j, host, u);
    }
  }

  lemma FoundValue(w: Window, t: int, data: seq<string>, j: int, host: string, u: int)
    requires AllParse(w, data) && FirstAccepted(w.parse, w.min, w.max, t, data, j, host, u)
    ensures host in Scan(w, t, data) && Scan(w, t, data)[host] == Hit(Falling(w.min, w.max, u - t), u)
  {
    ScanFinds(w, t, data, host);
    FirstAcceptedIs(w, t, data, j, host, u);
  }

  lemma ScanFindsAll(w: Window, t: int, data: seq<string>)
    requires AllParse(w, data)
    ensures Finds(w.parse, w.min, w.max, t, data, Scan(w, t, data))
  {
    forall host ensures host in Scan(w, t, data) <==> SomeFirst(w.parse, w.min, w.max, t, data, host) {
      FoundExactly(w, t, data, host);
    }
    forall j, host, u | FirstAccepted(w.parse, w.min, w.max, t, data, j, host, u)
      ensures host in Scan(w, t, data) && Scan(w, t, data)[host] == Hit(Falling(w.min, w.max, u - t), u)
    {
      FoundValue(w, t, data, j, host, u);
    }
  }

  predicate LogParses(data: seq<string>) {
    forall i | 0 <= i < |data| :: ConnectionParams(data[i]).Some?
  }

  lemma LogParsesMeaning(min: int, max: int, data: seq<string>)
    ensures LogParses(data) <==> AllParse(Pynalyzer(min, max), data)
  {
    var w := Pynalyzer(min, max);
    forall i | 0 <= i < |data| ensures w.parse(data[i]) == ConnectionParams(data[i]) {
    }
  }

  /** Main result for one scan of the analyzer, on any log that parses, with its two thresholds
      as they are given. */
  lemma PynalyzerFinds(min: int, max: int, t: int, data: seq<string>)
    requires LogParses(data)
    ensures Finds(ConnectionParams, min, max, t, data, Scan(Pynalyzer(min, max), t, data))
  {
    LogParsesMeaning(min, max, data);
    ScanFindsAll(Pynalyzer(min, max), t, data);
  }

  predicate InOrder(parse: string -> Option<Entry>, data: seq<string>) {
    && (forall i | 0 <= i < |data| :: parse(data[i]).Some?)
    && (forall i, j | 0 <= i < j < |data| :: parse(data[i]).value.time <= parse(data[j]).value.time)
  }

  /** `host` is listed exactly if some line of it is in the window, and then with the largest
      probability and the earliest time of these lines. */
  ghost predicate FindsBest(parse: string -> Option<Entry>, min: int, max: int, t: int, data: seq<string>, host: string, servers: map<string, Hit>) {
    && (host in servers <==> exists j, u | 0 <= j < |data| :: Accepted(parse, min, max, t, data[j], host, u))
    && (host in servers ==>
          && (exists j | 0 <= j < |data| :: Accepted(parse, min, max, t, data[j], host, servers[host].time))
          && servers[host].prob == Falling(min, max, servers[host].time - t)
          && (forall j, u | 0 <= j < |data| && Accepted(parse, min, max, t, data[j], host, u) ::
                servers[host].time <= u && Falling(min, max, u - t) <= servers[host].prob))
  }

  lemma AcceptedIsHit(w: Window, t: int, line: string, host: string, u: int)
    requires w.parse(line).Some?
    ensures Accepted(w.parse, w.min, w.max, t, line, host, u) <==> HitAt(w, t, line, host) && u == Parsed(w, line).time
    ensures HitAt(w, t, line, host) ==> HitOf(w, t, line).prob == Falling(w.min, w.max, Parsed(w, line).time - t)
  {
  }

  lemma SomeAccepted(w: Window, t: int, data: seq<string>, host: string)
    requires AllParse(w, data)
    ensures SomeHit(w, t, data, host) <==> exists j, u | 0 <= j < |data| :: Accepted(w.parse, w.min, w.max, t, data[j], host, u)
  {
    if SomeHit(w, t, data, host) {
      var j :| 0 <= j < |data| && HitAt(w, t, data[j], host);
      AcceptedIsHit(w, t, data[j], host, Parsed(w, data[j]).time);
    }
    if j, u :| 0 <= j < |data| && Accepted(w.parse, w.min, w.max, t, data[j], host, u) {
      AcceptedIsHit(w, t, data[j], host, u);
    }
  }

  lemma FoundIsAccepted(w: Window, t: int, data: seq<string>, host: string) returns (j: nat)
    requires InOrder(w.parse, data) && host in Scan(w, t, data)
    ensures var hit := Scan(w, t, data)[host];
            && j < |data| && Accepted(w.parse, w.min, w.max, t, data[j], host, hit.time)
            && hit.prob == Falling(w.min, w.max, hit.time - t)
  {
    ScanFinds(w, t, data, host);
    j := FirstHit(w, t, data, host);
    AcceptedIsHit(w, t, data[j], host, Parsed(w, data[j]).time);
  }

  lemma FoundIsBest(w: Window, t: int, data: seq<string>, host: string, j: nat, u: int)
    requires InOrder(w.parse, data) && host in Scan(w, t, data)
    requires j < |data| && Accepted(w.parse, w.min, w.max, t, data[j], host, u)
    ensures var hit := Scan(w, t, data)[host];
            hit.time <= u && Falling(w.min, w.max, u - t) <= hit.prob
  {
    SortedScan(w, t, data, host);
    AcceptedIsHit(w, t, data[j], host, u);
  }

  lemma SortedFinds(w: Window, t: int, data: seq<string>, host: string)
    requires InOrder(w.parse, data)
    ensures FindsBest(w.parse, w.min, w.max, t, data, host, Scan(w, t, data))
  {
    SortedScan(w, t, data, host);
    SomeAccepted(w, t, data, host);
    if host in Scan(w, t, data) {
      var k := FoundIsAccepted(w, t, data, host);
      forall j, u | 0 <= j < |data| && Accepted(w.parse, w.min, w.max, t, data[j], host, u)
        ensures Scan(w, t, data)[host].time <= u && Falling(w.min, w.max, u - t) <= Scan(w, t, data)[host].prob
      {
        FoundIsBest(w, t, data, host, j, u);
      }
    }
  }

  /** The same on a sorted log, where the early break and the order of the lines do not show. */
  lemma PynalyzerFindsSorted(min: int, max: int, t: int, data: seq<string>, host: string)
    requires InOrder(ConnectionParams, data)
    ensures FindsBest(ConnectionParams, min, max, t, data, host, Scan(Pynalyzer(min, max), t, data))
  {
    SortedFinds(Pynalyzer(min, max), t, data, host);
  }

  lemma {:induction false} ScanIsProper(w: Window, start: int, data: seq<string>, host: string)
    requires host in Scan(w, start, data)
    ensures var hit := Scan(w, start, data)[host];
            0.0 < hit.prob < 1.0 && InWindow(w, start, hit.time)
  {
    ScanFinds(w, start, data, host);
    CalcProbMeaning(w, start, Parsed(w, data[FirstHit(w, start, data, host)]).time, 1.0);
  }
}
