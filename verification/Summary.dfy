/** The analyzer's main program: ranking against ground truth. */
module Summary {
  import opened Basics
  import opened Ranking
  import opened GroundTruth
  import RealFacts
  import SetSum
  import opened Tallies

  datatype RealCandidate = RealCandidate(nconns: nat, server: string)

  /** `real_stat` of one client: the items of its dictionary, in any order. */
  ghost predicate ItemsOf(m: map<string, seq<string>>, r: seq<RealCandidate>) {
    && |r| == |m|
    && (forall i | 0 <= i < |r| :: r[i].server in m && r[i].nconns == |m[r[i].server]|)
    && (forall i, j | 0 <= i < j < |r| :: r[i].server != r[j].server)
  }

  method RealCandidates(m: map<string, seq<string>>) returns (r: seq<RealCandidate>)
    ensures ItemsOf(m, r)
  {
    r := [];
    var rest := m.Keys;
    while rest != {}
      invariant rest <= m.Keys && |r| + |rest| == |m|
      invariant forall i | 0 <= i < |r| :: r[i].server in m && r[i].server !in rest && r[i].nconns == |m[r[i].server]|
      invariant forall i, j | 0 <= i < j < |r| :: r[i].server != r[j].server
      decreases rest
    {
      var sv :| sv in rest;
      r := r + [RealCandidate(|m[sv]|, sv)];
      rest := rest - {sv};
    }
  }

  method RealStat(out: Table) returns (stat: map<string, seq<RealCandidate>>)
    ensures stat.Keys == out.Keys
    ensures forall c | c in out :: ItemsOf(out[c], stat[c])
  {
    stat := map[];
    var rest := out.Keys;
    ghost var done: set<string> := {};
    while rest != {}
      invariant done !! rest && done + rest == out.Keys && stat.Keys == done
      invariant forall c | c in stat :: ItemsOf(out[c], stat[c])
      decreases rest
    {
      var c :| c in rest;
      var r := RealCandidates(out[c]);
      SetSum.MoveOne(done, rest, c);
      SetSum.PutKeys(stat, c, r);
      stat := stat[c := r];
      rest, done := rest - {c}, done + {c};
    }
  }

  /** Every client of the ground truth has one well-defined server to compare with, and the
      number of connections of its last run there. */
  lemma TruthIsWellDefined(history: seq<ServerRecord>, c: string, r: seq<RealCandidate>)
    requires c in TableOf(history) && ItemsOf(TableOf(history)[c], r)
    ensures var rs := RecordsOf(history, c);
            rs != [] && r == [RealCandidate(|rs| - RunStart(rs), rs[|rs| - 1].server)] && r[0].nconns >= 1
  {
    TableMeaning(history, c);
  }

  // --------------------------------------------------------------- accuracy

  /** What the accuracy of a client must be: -1 unless both sides have a winner and it is the same
      server, and then the smaller of the two counts out of the larger. */
  ghost predicate Judged(cands: seq<Candidate>, truth: Option<RealCandidate>, p: real) {
    if cands != [] && truth.Some? && cands[0].server == truth.value.server then
      var a, b := cands[0].stats.nconns, truth.value.nconns;
      p > 0.0 && p * (if a <= b then b else a) as real == (if a <= b then a else b) as real
    else p == -1.0
  }

  /** The two winners agree. */
  predicate Matches(cands: seq<Candidate>, truth: Option<RealCandidate>) {
    truth.Some? && cands != [] && cands[0].server == truth.value.server
  }

  function SmallerOverLarger(a: nat, b: nat): (p: real)
    requires a >= 1 && b >= 1
  {
    if a <= b then a as real / b as real else b as real / a as real
  }

  lemma SmallerOverLargerBounds(a: nat, b: nat)
    requires a >= 1 && b >= 1
    ensures SmallerOverLarger(a, b) * (if a <= b then b else a) as real == (if a <= b then a else b) as real
    ensures 0.0 < SmallerOverLarger(a, b) <= 1.0
    ensures SmallerOverLarger(a, b) == 1.0 <==> a == b
  {
    var x, y := if a <= b then a as real else b as real, if a <= b then b as real else a as real;
    RealFacts.DivBound(x, y, 0.0);
    RealFacts.DivBound(x, y, 1.0);
    RealFacts.DivTimes(x, y);
  }

  /** Counted candidates: every nconns is positive. */
  predicate Counted(cands: seq<Candidate>) {
    forall i | 0 <= i < |cands| :: cands[i].stats.nconns >= 1
  }

  function Truth(realStat: map<string, seq<RealCandidate>>, c: string): Option<RealCandidate> {
    if c in realStat && realStat[c] != [] then Some(realStat[c][0]) else None
  }

  /** `maccuracy` of one client: -1 unless the winners agree. */
  function Accuracy(cands: seq<Candidate>, truth: Option<RealCandidate>): (p: real)
    requires Counted(cands) && (truth.Some? ==> truth.value.nconns >= 1)
    ensures Judged(cands, truth, p)
    ensures Matches(cands, truth) <==> p != -1.0
    ensures p != -1.0 ==> 0.0 < p <= 1.0
    ensures p == 1.0 <==> Matches(cands, truth) && cands[0].stats.nconns == truth.value.nconns
  {
    if Matches(cands, truth) then
      SmallerOverLargerBounds(truth.value.nconns, cands[0].stats.nconns);
      SmallerOverLarger(truth.value.nconns, cands[0].stats.nconns)
    else -1.0
  }

  datatype Report = Report(
    missing: nat,
    matched: nat,
    nClients: nat,
    maccuracy: map<string, real>,
    matchingAccuracy: real,
    matchedPortion: real)

  // ----------------------------------------------------------------- report

  ghost predicate Usable(stat: map<string, seq<Candidate>>, realStat: map<string, seq<RealCandidate>>) {
    && (forall c | c in stat :: Counted(stat[c]))
    && (forall c | c in realStat :: realStat[c] != [] && realStat[c][0].nconns >= 1)
  }

  function ClientAccuracy(stat: map<string, seq<Candidate>>, realStat: map<string, seq<RealCandidate>>, c: string): real
    requires Usable(stat, realStat)
  {
    if c in stat then Accuracy(stat[c], Truth(realStat, c)) else -1.0
  }

  ghost function AccuracyTotal(stat: map<string, seq<Candidate>>, realStat: map<string, seq<RealCandidate>>): real
    requires Usable(stat, realStat)
  {
    var acc := c => ClientAccuracy(stat, realStat, c);
    SetSum.RealSum(Matched(stat.Keys, acc), acc)
  }

  ghost predicate IsReport(stat: map<string, seq<Candidate>>, realStat: map<string, seq<RealCandidate>>, r: Report)
    requires Usable(stat, realStat)
  {
    && r.nClients == |stat.Keys| && r.maccuracy.Keys == stat.Keys
    && (forall c | c in stat :: r.maccuracy[c] == ClientAccuracy(stat, realStat, c))
    && Tally(stat.Keys, realStat.Keys, c => ClientAccuracy(stat, realStat, c), r.missing, r.matched, AccuracyTotal(stat, realStat))
    && r.matchingAccuracy == (if r.matched > 0 then AccuracyTotal(stat, realStat) / r.matched as real else 0.0)
    && r.matchedPortion == (if r.matched > 0 then r.matched as real / r.nClients as real else 0.0)
  }

  /** The matched clients of a report. */
  function MatchedOf(maccuracy: map<string, real>): set<string> {
    set c | c in maccuracy && maccuracy[c] != -1.0
  }

  ghost function SumOver(clients: set<string>, maccuracy: map<string, real>): real {
    SetSum.RealSum(clients, c => if c in maccuracy then maccuracy[c] else 0.0)
  }

  /** The figures of a report, told from its own list of accuracies: the number of matched clients,
      the mean of their accuracies and their share of all clients, both zero without a match. */
  ghost predicate FiguresFit(r: Report) {
    && r.nClients == |r.maccuracy.Keys|
    && r.matched == |MatchedOf(r.maccuracy)|
    && r.matchingAccuracy == (if r.matched > 0 then SumOver(MatchedOf(r.maccuracy), r.maccuracy) / r.matched as real else 0.0)
    && (r.matched > 0 ==> r.nClients > 0)
    && r.matchedPortion == (if r.matched > 0 then r.matched as real / r.nClients as real else 0.0)
  }

  lemma MatchedClients(clients: set<string>, maccuracy: map<string, real>, acc: string -> real)
    requires maccuracy.Keys == clients && forall c | c in clients :: maccuracy[c] == acc(c)
    ensures MatchedOf(maccuracy) == Matched(clients, acc)
    ensures SumOver(MatchedOf(maccuracy), maccuracy) == SetSum.RealSum(Matched(clients, acc), acc)
  {
    SetSum.RealSumSame(Matched(clients, acc), c => if c in maccuracy then maccuracy[c] else 0.0, acc);
  }

  lemma ReportFiguresFit(stat: map<string, seq<Candidate>>, realStat: map<string, seq<RealCandidate>>, r: Report)
    requires Usable(stat, realStat) && IsReport(stat, realStat, r)
    ensures FiguresFit(r)
  {
    var acc := c => ClientAccuracy(stat, realStat, c);
    MatchedClients(stat.Keys, r.maccuracy, acc);
    ReportBounds(stat, realStat, r);
  }

  lemma QuotientBounds(x: real, y: real)
    requires 0.0 < x <= y
    ensures 0.0 < x / y <= 1.0
  {
    RealFacts.DivBound(x, y, 0.0);
    RealFacts.DivBound(x, y, 1.0);
  }

  /** Main result: the figures of any report are in range. */
  lemma ReportBounds(stat: map<string, seq<Candidate>>, realStat: map<string, seq<RealCandidate>>, r: Report)
    requires Usable(stat, realStat) && IsReport(stat, realStat, r)
    ensures r.matched + r.missing <= r.nClients
    ensures forall c | c in stat :: r.maccuracy[c] == -1.0 || 0.0 < r.maccuracy[c] <= 1.0
    ensures r.matched > 0 ==> 0.0 < r.matchingAccuracy <= 1.0 && 0.0 < r.matchedPortion <= 1.0
    ensures r.matched == 0 ==> r.matchingAccuracy == 0.0 && r.matchedPortion == 0.0
  {
    var total := AccuracyTotal(stat, realStat);
    TallyBounds(stat.Keys, realStat.Keys, c => ClientAccuracy(stat, realStat, c), r.missing, r.matched, total);
    if r.matched > 0 {
      QuotientBounds(total, r.matched as real);
      QuotientBounds(r.matched as real, r.nClients as real);
    }
  }

  method AccuracySummary(stat: map<string, seq<Candidate>>, realStat: map<string, seq<RealCandidate>>)
    returns (r: Report)
    requires Usable(stat, realStat)
    ensures IsReport(stat, realStat, r)
  {
    var acc := c => ClientAccuracy(stat, realStat, c);
    var maccuracy, missing, matched, matchedAccuracy := CompareClients(stat.Keys, realStat.Keys, acc);
    var matchedPortion := 0.0;
    TallyBounds(stat.Keys, realStat.Keys, acc, missing, matched, matchedAccuracy);
    if matched > 0 {
      matchedAccuracy := matchedAccuracy / matched as real;
      matchedPortion := matched as real / |stat.Keys| as real;
    }
    r := Report(missing, matched, |stat.Keys|, maccuracy, matchedAccuracy, matchedPortion);
  }
}
