/** The analyzer from its input files to its report. */
module Evaluation {
  import opened Basics
  import opened TraceFormat
  import opened Correlation
  import opened Analysis
  import opened AnalysisLaws
  import opened Ranking
  import opened GroundTruth
  import opened Summary

  datatype File = File(name: string, text: string)

  /** Only files whose name starts with "server" are ground truth. */
  predicate IsServerLog(f: File) {
    "server" <= f.name
  }

  /** The ground-truth records of all files in order; None if one of them is malformed. */
  function TruthRecords(files: seq<File>): Option<seq<ServerRecord>> {
    if files == [] then Some([])
    else
      match (TruthRecords(files[..|files| - 1]), FileRecords(files[|files| - 1].name, Lines(files[|files| - 1].text)))
      case (None, _) => None
      case (Some(rs), last) =>
        if !IsServerLog(files[|files| - 1]) then Some(rs)
        else if last.Some? then Some(rs + last.value) else None
  }

  /** What one file contributes: a server's file its records under its own name, any other file
      nothing, whatever it holds. */
  lemma TruthOfFile(f: File)
    ensures |f.name| >= 6 && f.name[..6] == "server" ==> TruthRecords([f]) == FileRecords(f.name, Lines(f.text))
    ensures !(|f.name| >= 6 && f.name[..6] == "server") ==> TruthRecords([f]) == Some([])
  {
    assert [f][..|[f]| - 1] == [] && [f][|[f]| - 1] == f;
    assert TruthRecords([]) == Some([]);
    if IsServerLog(f) {
      var last := FileRecords(f.name, Lines(f.text));
      assert last.Some? ==> [] + last.value == last.value;
    }
  }

  /** Files contribute in order, and one malformed file fails them all. */
  lemma {:induction false} TruthOfFiles(a: seq<File>, b: seq<File>)
    ensures TruthRecords(a + b).Some? <==> TruthRecords(a).Some? && TruthRecords(b).Some?
    ensures TruthRecords(a + b).Some? ==> TruthRecords(a + b).value == TruthRecords(a).value + TruthRecords(b).value
    decreases |b|
  {
    if b == [] {
      assert a + b == a;
    } else {
      var b' := b[..|b| - 1];
      TruthOfFiles(a, b');
      assert (a + b)[..|a + b| - 1] == a + b';
    }
  }

  lemma {:induction false} MalformedStays(files: seq<File>, n: nat)
    requires n <= |files| && TruthRecords(files[..n]).None?
    ensures TruthRecords(files).None?
    decreases |files|
  {
    if n < |files| {
      assert files[..|files| - 1][..n] == files[..n];
      MalformedStays(files[..|files| - 1], n);
    } else {
      assert files[..n] == files;
    }
  }

  method RealConnectionsParser(files: seq<File>) returns (ok: bool, table: Table)
    ensures ok <==> TruthRecords(files).Some?
    ensures ok ==> table == TableOf(TruthRecords(files).value)
  {
    var reader := new RealConnections();
    var i := 0;
    while i < |files|
      invariant 0 <= i <= |files| && fresh(reader) && reader.Valid()
      invariant TruthRecords(files[..i]) == Some(reader.history)
    {
      assert files[..i + 1][..i] == files[..i];
      if IsServerLog(files[i]) {
        var done := reader.UpdateRealConnections(files[i].name, files[i].text);
        if !done {
          MalformedStays(files, i + 1);
          return false, map[];
        }
      }
      i := i + 1;
    }
    assert files[..i] == files;
    return true, reader.out;
  }

  lemma RankedAreCounted(conns: seq<Conn>, r: seq<Candidate>)
    requires IsRanking(conns, r)
    ensures Counted(r)
  {
  }

  /** The server that the ground truth gives a client: its latest, with its last run there. */
  function TruthOf(history: seq<ServerRecord>, c: string): (t: Option<RealCandidate>)
    ensures t.Some? ==> t.value.nconns >= 1
  {
    var rs := RecordsOf(history, c);
    if rs == [] then None else Some(RealCandidate(|rs| - RunStart(rs), rs[|rs| - 1].server))
  }

  lemma TruthAgrees(history: seq<ServerRecord>, realStat: map<string, seq<RealCandidate>>, c: string)
    requires realStat.Keys == TableOf(history).Keys
    requires forall c | c in realStat :: ItemsOf(TableOf(history)[c], realStat[c])
    ensures Truth(realStat, c) == TruthOf(history, c)
    ensures c in realStat ==> realStat[c] != [] && realStat[c][0].nconns >= 1
  {
    TableMeaning(history, c);
    if c in realStat {
      TruthIsWellDefined(history, c, realStat[c]);
    }
  }

  /** A client's accuracy compares the winner of some ranking of its own records with its truth. */
  ghost predicate Explained(min: int, max: int, data: seq<string>, history: seq<ServerRecord>, c: string, p: real) {
    exists conns, r | IsRanking(conns, r) ::
      AreRecords(ConnectionParams, min, max, data, |data|, c, conns) && Judged(r, TruthOf(history, c), p)
  }

  ghost predicate IsTraced(data: seq<string>, c: string) {
    exists line | line in data :: IsClientLine(ConnectionParams, line, c)
  }

  /** What a report must be, given the thresholds and the two inputs. */
  ghost predicate ReportFor(min: int, max: int, data: seq<string>, history: seq<ServerRecord>, r: Report) {
    && (forall c :: c in r.maccuracy <==> IsTraced(data, c))
    && (forall c | c in r.maccuracy :: Explained(min, max, data, history, c, r.maccuracy[c]))
    && r.missing == |r.maccuracy.Keys - TableOf(history).Keys|
    && FiguresFit(r)
    && r.matched + r.missing <= r.nClients
    && (r.matched > 0 ==> 0.0 < r.matchingAccuracy <= 1.0 && 0.0 < r.matchedPortion <= 1.0)
  }

  lemma StatIsUsable(
    connections: map<string, seq<Conn>>, history: seq<ServerRecord>,
    stat: map<string, seq<Candidate>>, realStat: map<string, seq<RealCandidate>>)
    requires stat.Keys == connections.Keys && forall c | c in stat :: IsRanking(connections[c], stat[c])
    requires realStat.Keys == TableOf(history).Keys
    requires forall c | c in realStat :: ItemsOf(TableOf(history)[c], realStat[c])
    ensures Usable(stat, realStat)
  {
    forall c | c in stat ensures Counted(stat[c]) {
      RankedAreCounted(connections[c], stat[c]);
    }
    forall c | c in realStat ensures realStat[c] != [] && realStat[c][0].nconns >= 1 {
      TruthAgrees(history, realStat, c);
    }
  }

  method Compare(min: int, max: int, data: seq<string>, connections: map<string, seq<Conn>>, ghost history: seq<ServerRecord>, table: Table)
    returns (r: Report)
    requires LogParses(data)
    requires Describes(Pynalyzer(min, max), data, |data|, connections) && table == TableOf(history)
    ensures ReportFor(min, max, data, history, r)
  {
    var stat := CandidateRankings(connections);
    var realStat: map<string, seq<RealCandidate>> := RealStat(table);
    StatIsUsable(connections, history, stat, realStat);
    r := AccuracySummary(stat, realStat);
    ReportBounds(stat, realStat, r);
    ReportFiguresFit(stat, realStat, r);
    ReportIsExplained(min, max, data, connections, history, stat, realStat, r);
    ReportIsComplete(min, max, data, connections);
  }

  lemma ClientIsExplained(
    min: int, max: int, data: seq<string>, conns: seq<Conn>, history: seq<ServerRecord>, c: string,
    ranking: seq<Candidate>, truth: Option<RealCandidate>, p: real)
    requires AreRecords(ConnectionParams, min, max, data, |data|, c, conns)
    requires IsRanking(conns, ranking) && Counted(ranking)
    requires truth == TruthOf(history, c) && p == Accuracy(ranking, truth)
    ensures Explained(min, max, data, history, c, p)
  {
  }

  lemma ReportIsComplete(min: int, max: int, data: seq<string>, connections: map<string, seq<Conn>>)
    requires LogParses(data)
    requires Describes(Pynalyzer(min, max), data, |data|, connections)
    ensures forall c :: c in connections <==> IsTraced(data, c)
  {
    var w := Pynalyzer(min, max);
    LogParsesMeaning(min, max, data);
    forall i, c | 0 <= i < |data|
      ensures ClientLine(w, data[i], c) <==> IsClientLine(ConnectionParams, data[i], c)
    {
      assert w.parse(data[i]).Some?;
    }
  }

  lemma ReportIsExplained(
    min: int, max: int, data: seq<string>, connections: map<string, seq<Conn>>, history: seq<ServerRecord>,
    stat: map<string, seq<Candidate>>, realStat: map<string, seq<RealCandidate>>, r: Report)
    requires LogParses(data)
    requires Describes(Pynalyzer(min, max), data, |data|, connections) && stat.Keys == connections.Keys
    requires forall c | c in stat :: IsRanking(connections[c], stat[c])
    requires realStat.Keys == TableOf(history).Keys
    requires forall c | c in realStat :: ItemsOf(TableOf(history)[c], realStat[c])
    requires Usable(stat, realStat) && IsReport(stat, realStat, r)
    ensures forall c | c in r.maccuracy :: Explained(min, max, data, history, c, r.maccuracy[c])
  {
    forall c | c in r.maccuracy ensures Explained(min, max, data, history, c, r.maccuracy[c]) {
      TruthAgrees(history, realStat, c);
      PynalyzerRecords(min, max, data, c);
      ClientIsExplained(min, max, data, connections[c], history, c, stat[c], Truth(realStat, c), r.maccuracy[c]);
    }
  }

  /** Main result: for all thresholds and all input files the program either rejects a malformed
      line or prints a report whose accuracies are explained and whose figures are exactly theirs. */
  method Evaluate(min: int, max: int, trace: string, files: seq<File>) returns (r: Option<Report>)
    ensures var data := Lines(trace);
            && (r.Some? <==> LogParses(data) && TruthRecords(files).Some?)
            && (r.Some? ==> ReportFor(min, max, data, TruthRecords(files).value, r.value))
  {
    var w, data := Pynalyzer(min, max), Lines(trace);
    LogParsesMeaning(min, max, data);
    var connections := Analyze(w, data);
    if connections.None? { return None; }
    var ok, table := RealConnectionsParser(files);
    if !ok { return None; }
    var report := Compare(min, max, data, connections.value, TruthRecords(files).value, table);
    return Some(report);
  }
}
