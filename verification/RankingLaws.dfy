/** What the ranking of a client says about the log it came from. */
module RankingLaws {
  import opened Correlation
  import opened Analysis
  import opened AnalysisLaws
  import opened Scores
  import opened Ranking
  import SetSum

  // ----------------------------------------------------------------- bounds

  ghost predicate ProperConns(conns: seq<Conn>) {
    forall i, sv | 0 <= i < |conns| && sv in conns[i].servers :: 0.0 < conns[i].servers[sv].prob < 1.0
  }

  lemma {:induction false} HistoryIsProper(conns: seq<Conn>, n: nat, sv: string)
    requires n <= |conns| && ProperConns(conns)
    ensures forall i | 0 <= i < |History(conns, n, sv)| :: 0.0 < History(conns, n, sv)[i].prob < 1.0
  {
    if n > 0 {
      HistoryIsProper(conns, n - 1, sv);
    }
  }

  /** Which records a server's history comes from: exactly those that list it, in order, each
      with its own times and the probability stored there. */
  lemma {:induction false} HistoryByPosition(conns: seq<Conn>, n: nat, sv: string) returns (at: seq<nat>)
    requires n <= |conns|
    ensures var h := History(conns, n, sv);
            && |at| == |h|
            && (forall i, j | 0 <= i < j < |at| :: at[i] < at[j])
            && (forall k | 0 <= k < n :: sv in conns[k].servers <==> k in at)
            && (forall i | 0 <= i < |at| ::
                  && at[i] < n && sv in conns[at[i]].servers
                  && h[i].ctime == conns[at[i]].time
                  && h[i].stime == conns[at[i]].servers[sv].time
                  && h[i].prob == conns[at[i]].servers[sv].prob)
  {
    at := [];
    if n > 0 {
      at := HistoryByPosition(conns, n - 1, sv);
      if sv in conns[n - 1].servers {
        at := at + [n - 1];
      }
    }
  }

  /** Main bounds on any ranked candidate of records with proper probabilities, and what
      determines its three figures. */
  lemma CandidateBounds(conns: seq<Conn>, r: seq<Candidate>, i: nat, ps: seq<real>)
    requires IsRanking(conns, r) && i < |r| && ProperConns(conns)
    requires ps == Probs(History(conns, |conns|, r[i].server))
    ensures Proper(ps) && r[i].stats == StatsOf(ps) && r[i].stats.nconns == |ps| >= 1
    ensures 0.0 < r[i].stats.avg <= r[i].stats.score <= Total(ps) < r[i].stats.nconns as real
    ensures r[i].stats.score == Total(ps) <==> AllEqual(ps)
    ensures Determined(Total(ps), Variation(ps), |ps|, r[i].stats)
  {
    assert HasStats(conns, r[i]);
    HistoryIsProper(conns, |conns|, r[i].server);
    ScoreBounds(ps, r[i].stats);
    ScoreTimesGap(ps, r[i].stats);
  }

  lemma WinnerLeads(conns: seq<Conn>, r: seq<Candidate>)
    requires IsRanking(conns, r) && |r| > 1
    ensures r[0].diff.Some? && r[0].diff.value.dscore >= 0.0
    ensures r[1].stats.score + r[0].diff.value.dscore == r[0].stats.score
    ensures r[0].stats.gap + r[0].diff.value.dgap == r[1].stats.gap
    ensures forall i | 0 < i < |r| :: r[i].diff.None? && r[0].stats.score >= r[i].stats.score
  {
  }

  /** The same from the log: whatever the thresholds and the order of the lines. */
  lemma LogRecordsAreProper(w: Window, data: seq<string>, connections: map<string, seq<Conn>>, c: string)
    requires Describes(w, data, |data|, connections) && c in connections
    ensures ProperConns(connections[c])
  {
    forall i, sv | 0 <= i < |connections[c]| && sv in connections[c][i].servers
      ensures 0.0 < connections[c][i].servers[sv].prob < 1.0
    {
      ConnsAreProper(w, data, |data|, c, i, sv);
    }
  }

  // ----------------------------------------------------------- conservation

  /** The total number of candidate servers over the first n records. */
  function HitCount(conns: seq<Conn>, n: nat): nat
    requires n <= |conns|
  {
    if n == 0 then 0 else HitCount(conns, n - 1) + |conns[n - 1].servers|
  }

  function NconnsTotal(r: seq<Candidate>): nat {
    if r == [] then 0 else NconnsTotal(r[..|r| - 1]) + r[|r| - 1].stats.nconns
  }

  lemma {:induction false} HistorySum(conns: seq<Conn>, n: nat, servers: set<string>)
    requires n <= |conns|
    requires forall i | 0 <= i < n :: conns[i].servers.Keys <= servers
    ensures SetSum.Sum(servers, sv => |History(conns, n, sv)|) == HitCount(conns, n)
  {
    if n == 0 {
      SetSum.SumZero(servers, sv => |History(conns, n, sv)|);
    } else {
      HistorySum(conns, n - 1, servers);
      SetSum.SumRaised(servers, sv => |History(conns, n - 1, sv)|, sv => |History(conns, n, sv)|, conns[n - 1].servers.Keys);
    }
  }

  ghost function Names(r: seq<Candidate>): set<string> {
    set i | 0 <= i < |r| :: r[i].server
  }

  lemma NamesSnoc(r: seq<Candidate>)
    requires Distinct(r) && r != []
    ensures var n := |r| - 1;
            r[n].server in Names(r) && Names(r) - {r[n].server} == Names(r[..n]) && Distinct(r[..n])
  {
  }

  lemma {:induction false} NconnsOverNames(r: seq<Candidate>, f: string -> nat)
    requires Distinct(r)
    requires forall i | 0 <= i < |r| :: r[i].stats.nconns == f(r[i].server)
    ensures NconnsTotal(r) == SetSum.Sum(Names(r), f)
    decreases |r|
  {
    if r == [] {
      SetSum.SumZero(Names(r), f);
    } else {
      NamesSnoc(r);
      NconnsOverNames(r[..|r| - 1], f);
      SetSum.SumRemove(Names(r), f, r[|r| - 1].server);
    }
  }

  lemma {:induction false} SeenServers(conns: seq<Conn>, n: nat, sv: string)
    requires n <= |conns|
    ensures History(conns, n, sv) != [] <==> exists i | 0 <= i < n :: sv in conns[i].servers
  {
    if n > 0 {
      SeenServers(conns, n - 1, sv);
    }
  }

  /** Main result: the nconns of a client's ranking add up to all candidates of all its records. */
  lemma NconnsConserved(conns: seq<Conn>, r: seq<Candidate>)
    requires IsRanking(conns, r)
    ensures NconnsTotal(r) == HitCount(conns, |conns|)
  {
    forall i | 0 <= i < |conns| ensures conns[i].servers.Keys <= Names(r) {
      forall sv | sv in conns[i].servers.Keys ensures sv in Names(r) {
        SeenServers(conns, |conns|, sv);
        assert Includes(r, sv);
      }
    }
    forall i | 0 <= i < |r| ensures r[i].stats.nconns == |History(conns, |conns|, r[i].server)| {
      assert HasStats(conns, r[i]);
    }
    HistorySum(conns, |conns|, Names(r));
    NconnsOverNames(r, sv => |History(conns, |conns|, sv)|);
  }
}
