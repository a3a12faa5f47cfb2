/** Summing the records of one client per server, and ranking the servers by score. */
module Ranking {
  import opened Basics
  import opened Correlation
  import opened Scores
  import SetSum

  datatype ServerData = ServerData(ctime: int, stime: int, prob: real)

  /** An entry of servers_infos. */
  datatype Info = Info(sum: real, conns: seq<ServerData>, gap: real, lastProb: real)

  /** What the first n records say about one server, in order. */
  function History(conns: seq<Conn>, n: nat, sv: string): seq<ServerData>
    requires n <= |conns|
  {
    if n == 0 then []
    else
      var c := conns[n - 1];
      History(conns, n - 1, sv) +
      if sv in c.servers then [ServerData(c.time, c.servers[sv].time, c.servers[sv].prob)] else []
  }

  function Probs(h: seq<ServerData>): (ps: seq<real>)
    ensures |ps| == |h| && forall i | 0 <= i < |h| :: ps[i] == h[i].prob
  {
    if h == [] then [] else Probs(h[..|h| - 1]) + [h[|h| - 1].prob]
  }

  function InfoOf(h: seq<ServerData>): Info
    requires h != []
  {
    Info(Total(Probs(h)), h, Variation(Probs(h)), h[|h| - 1].prob)
  }

  /** One visit to a server entry, created on the first. */
  function Visited(infos: map<string, Info>, sv: string, d: ServerData): Info {
    var was := if sv in infos then infos[sv] else Info(0.0, [], 0.0, d.prob);
    Info(was.sum + d.prob, was.conns + [d], was.gap + Abs(d.prob - was.lastProb), d.prob)
  }

  /** One more visit keeps sum and total variation up to date. */
  lemma VisitKeepsInfo(infos: map<string, Info>, sv: string, h: seq<ServerData>, d: ServerData)
    requires sv in infos <==> h != []
    requires sv in infos ==> infos[sv] == InfoOf(h)
    ensures Visited(infos, sv, d) == InfoOf(h + [d])
  {
    var h' := h + [d];
    assert h'[..|h|] == h;
    var ps := Probs(h');
    assert ps[..|h|] == Probs(h);
    if h == [] {
      assert Total(ps[..0]) == 0.0;
    } else {
      assert ps[|ps| - 2] == h[|h| - 1].prob;
    }
  }

  /** The dictionary after n records and the servers `visited` of the next one. */
  ghost predicate Summarizes(conns: seq<Conn>, n: nat, visited: set<string>, infos: map<string, Info>)
    requires n <= |conns| && (visited != {} ==> n < |conns|)
  {
    forall sv ::
      var h := History(conns, if sv in visited then n + 1 else n, sv);
      && (sv in infos <==> h != [])
      && (sv in infos ==> infos[sv] == InfoOf(h))
  }

  lemma SummarizesNext(conns: seq<Conn>, n: nat, infos: map<string, Info>)
    requires n < |conns| && Summarizes(conns, n, conns[n].servers.Keys, infos)
    ensures Summarizes(conns, n + 1, {}, infos)
  {
    forall sv ensures History(conns, n + 1, sv) == History(conns, if sv in conns[n].servers.Keys then n + 1 else n, sv) {
    }
  }

  function DataOf(c: Conn, sv: string): ServerData
    requires sv in c.servers
  {
    ServerData(c.time, c.servers[sv].time, c.servers[sv].prob)
  }

  lemma SummarizesVisit(conns: seq<Conn>, n: nat, visited: set<string>, infos: map<string, Info>, sv: string)
    requires n < |conns| && Summarizes(conns, n, visited, infos)
    requires sv in conns[n].servers && sv !in visited
    ensures Summarizes(conns, n, visited + {sv}, infos[sv := Visited(infos, sv, DataOf(conns[n], sv))])
  {
    var h := History(conns, n, sv);
    VisitKeepsInfo(infos, sv, h, DataOf(conns[n], sv));
    assert History(conns, n + 1, sv) == h + [DataOf(conns[n], sv)];
  }

  method SummarizeServers(conns: seq<Conn>) returns (infos: map<string, Info>)
    ensures Summarizes(conns, |conns|, {}, infos)
  {
    infos := map[];
    var i := 0;
    while i < |conns|
      invariant 0 <= i <= |conns| && Summarizes(conns, i, {}, infos)
    {
      infos := SummarizeConn(conns, i, infos);
      SummarizesNext(conns, i, infos);
      i := i + 1;
    }
  }

  /** The inner loop: every server of one record, in any order. */
  method SummarizeConn(conns: seq<Conn>, i: nat, before: map<string, Info>) returns (infos: map<string, Info>)
    requires i < |conns| && Summarizes(conns, i, {}, before)
    ensures Summarizes(conns, i, conns[i].servers.Keys, infos)
  {
    var cliconn := conns[i];
    infos := before;
    var rest := cliconn.servers.Keys;
    while rest != {}
      invariant rest <= cliconn.servers.Keys
      invariant Summarizes(conns, i, cliconn.servers.Keys - rest, infos)
      decreases rest
    {
      var sv :| sv in rest;
      SummarizesVisit(conns, i, cliconn.servers.Keys - rest, infos, sv);
      infos := infos[sv := Visited(infos, sv, DataOf(cliconn, sv))];
      assert cliconn.servers.Keys - (rest - {sv}) == cliconn.servers.Keys - rest + {sv};
      rest := rest - {sv};
    }
    assert cliconn.servers.Keys - rest == cliconn.servers.Keys;
  }

  // ---------------------------------------------------------------- ranking

  /** dgap and dscore, present only on the winner of at least two. */
  datatype Diff = Diff(dgap: real, dscore: real)

  datatype Candidate = Candidate(server: string, stats: Stats, diff: Option<Diff>)

  ghost predicate Descending(r: seq<Candidate>) {
    forall i, j | 0 <= i < j < |r| :: r[i].stats.score >= r[j].stats.score
  }

  ghost predicate Distinct(r: seq<Candidate>) {
    forall i, j | 0 <= i < j < |r| :: r[i].server != r[j].server
  }

  ghost predicate Includes(r: seq<Candidate>, sv: string) {
    exists i | 0 <= i < |r| :: r[i].server == sv
  }

  ghost predicate HasStats(conns: seq<Conn>, c: Candidate) {
    var h := History(conns, |conns|, c.server);
    h != [] && c.stats == StatsOf(Probs(h))
  }

  /** Exactly the servers that occur, each once, with the statistics of its own history. */
  ghost predicate Lists(conns: seq<Conn>, r: seq<Candidate>) {
    && Distinct(r)
    && (forall sv :: History(conns, |conns|, sv) != [] <==> Includes(r, sv))
    && (forall i | 0 <= i < |r| :: HasStats(conns, r[i]))
  }

  ghost predicate IsRanking(conns: seq<Conn>, r: seq<Candidate>) {
    && Lists(conns, r) && Descending(r)
    && (forall i | 0 <= i < |r| :: r[i].diff.Some? <==> i == 0 && |r| > 1)
    && (|r| > 1 ==>
          r[0].diff == Some(Lead(r[0].stats, r[1].stats)))
  }

  /** Where a score goes: after every score that is not smaller. */
  function Slot(r: seq<Candidate>, score: real): (k: nat)
    ensures k <= |r| && forall i | 0 <= i < k :: r[i].stats.score >= score
    ensures k < |r| ==> r[k].stats.score < score
  {
    if r == [] || score > r[0].stats.score then 0 else 1 + Slot(r[1..], score)
  }

  function Insert(r: seq<Candidate>, c: Candidate): seq<Candidate> {
    var k := Slot(r, c.stats.score);
    r[..k] + [c] + r[k..]
  }

  /** The items of the dictionary restricted to `done`, each once. */
  ghost predicate Enumerates(servers: map<string, Stats>, done: set<string>, r: seq<Candidate>) {
    && done <= servers.Keys && Distinct(r)
    && (forall i | 0 <= i < |r| :: r[i].server in done && r[i] == Candidate(r[i].server, servers[r[i].server], None))
    && (forall sv | sv in done :: Includes(r, sv))
  }

  /** Where the elements of an extended ranking come from. */
  lemma Inserted(r: seq<Candidate>, c: Candidate) returns (k: nat, r': seq<Candidate>)
    ensures k < |r'| == |r| + 1 && r' == Insert(r, c) && r'[k] == c
    ensures k == Slot(r, c.stats.score)
    ensures forall i | 0 <= i < k :: r'[i] == r[i]
    ensures forall i | k < i < |r'| :: r'[i] == r[i - 1]
  {
    k := Slot(r, c.stats.score);
    r' := Insert(r, c);
  }

  lemma InsertDescending(r: seq<Candidate>, c: Candidate)
    requires Descending(r)
    ensures Descending(Insert(r, c))
  {
  }

  lemma InsertDistinct(r: seq<Candidate>, c: Candidate)
    requires Distinct(r) && !Includes(r, c.server)
    ensures Distinct(Insert(r, c))
  {
  }

  lemma InsertIncludes(r: seq<Candidate>, c: Candidate, x: string)
    ensures Includes(Insert(r, c), x) <==> Includes(r, x) || x == c.server
  {
    var k, r' := Inserted(r, c);
    if i :| 0 <= i < |r| && r[i].server == x {
      if i < k { assert r'[i] == r[i]; } else { assert r'[i + 1] == r[i]; }
    }
  }

  lemma InsertEnumerates(servers: map<string, Stats>, done: set<string>, r: seq<Candidate>, sv: string)
    requires Enumerates(servers, done, r) && Descending(r) && sv in servers && sv !in done
    ensures Enumerates(servers, done + {sv}, Insert(r, Candidate(sv, servers[sv], None)))
    ensures Descending(Insert(r, Candidate(sv, servers[sv], None)))
  {
    var c := Candidate(sv, servers[sv], None);
    InsertDistinct(r, c);
    InsertDescending(r, c);
    var k, r' := Inserted(r, c);
    forall x | x in done + {sv} ensures Includes(r', x) {
      InsertIncludes(r, c, x);
    }
  }

  /** sorted(..., reverse = True) by score. */
  method SortedByScore(servers: map<string, Stats>) returns (r: seq<Candidate>)
    ensures Enumerates(servers, servers.Keys, r) && Descending(r)
  {
    r := [];
    var rest := servers.Keys;
    while rest != {}
      invariant rest <= servers.Keys
      invariant Enumerates(servers, servers.Keys - rest, r) && Descending(r)
      decreases rest
    {
      var sv :| sv in rest;
      InsertEnumerates(servers, servers.Keys - rest, r, sv);
      r := Insert(r, Candidate(sv, servers[sv], None));
      assert servers.Keys - (rest - {sv}) == servers.Keys - rest + {sv};
      rest := rest - {sv};
    }
    assert servers.Keys - rest == servers.Keys;
  }

  ghost predicate Accurate(i: Info) {
    i.conns != [] && i.sum == Total(Probs(i.conns)) && i.gap == Variation(Probs(i.conns))
  }

  ghost predicate Filtered(i: Info, s: Stats) {
    i.conns != [] && s == StatsOf(Probs(i.conns))
  }

  method FilterInfo(i: Info) returns (s: Stats)
    requires Accurate(i)
    ensures Filtered(i, s)
  {
    s := Summarized(i.sum, i.gap, |i.conns|);
  }

  /** The smaller dictionary. */
  method FilterInfos(infos: map<string, Info>) returns (servers: map<string, Stats>)
    requires forall sv | sv in infos :: Accurate(infos[sv])
    ensures servers.Keys == infos.Keys
    ensures forall sv | sv in infos :: Filtered(infos[sv], servers[sv])
  {
    servers := map[];
    var rest := infos.Keys;
    ghost var done: set<string> := {};
    while rest != {}
      invariant done !! rest && done + rest == infos.Keys && servers.Keys == done
      invariant forall sv | sv in servers :: Filtered(infos[sv], servers[sv])
      decreases rest
    {
      var sv :| sv in rest;
      var stats := FilterInfo(infos[sv]);
      SetSum.MoveOne(done, rest, sv);
      SetSum.PutKeys(servers, sv, stats);
      servers := servers[sv := stats];
      rest, done := rest - {sv}, done + {sv};
    }
  }

  lemma EnumeratedLists(conns: seq<Conn>, infos: map<string, Info>, servers: map<string, Stats>, r: seq<Candidate>)
    requires Summarizes(conns, |conns|, {}, infos)
    requires servers.Keys == infos.Keys && forall sv | sv in infos :: Filtered(infos[sv], servers[sv])
    requires Enumerates(servers, servers.Keys, r)
    ensures Lists(conns, r)
  {
    forall sv ensures History(conns, |conns|, sv) != [] <==> Includes(r, sv) {
      assert sv in infos <==> History(conns, |conns|, sv) != [];
    }
    forall i | 0 <= i < |r| ensures HasStats(conns, r[i]) {
      var sv := r[i].server;
      assert sv in infos && infos[sv] == InfoOf(History(conns, |conns|, sv));
      assert Filtered(infos[sv], servers[sv]);
    }
  }

  lemma SummarizedAreAccurate(conns: seq<Conn>, infos: map<string, Info>)
    requires Summarizes(conns, |conns|, {}, infos)
    ensures forall sv | sv in infos :: Accurate(infos[sv])
  {
  }

  method GetAllServers(conns: seq<Conn>) returns (r: seq<Candidate>)
    ensures IsRanking(conns, r)
  {
    var infos := SummarizeServers(conns);
    SummarizedAreAccurate(conns, infos);
    var servers := FilterInfos(infos);
    r := SortedByScore(servers);
    EnumeratedLists(conns, infos, servers, r);
    ghost var sorted := r;
    r := CompareWinner(r);
    WithLeadRanks(conns, sorted, r);
  }

  /** dgap and dscore are added to the first of two or more. */
  method CompareWinner(sorted: seq<Candidate>) returns (r: seq<Candidate>)
    ensures |sorted| <= 1 ==> r == sorted
    ensures |sorted| > 1 ==> r == [sorted[0].(diff := Some(Lead(sorted[0].stats, sorted[1].stats)))] + sorted[1..]
  {
    r := sorted;
    if |r| > 1 {
      var diff := Lead(r[0].stats, r[1].stats);
      r := r[0 := r[0].(diff := Some(diff))];
    }
  }

  function Lead(first: Stats, second: Stats): Diff {
    Diff(second.gap - first.gap, first.score - second.score)
  }

  lemma WithLeadRanks(conns: seq<Conn>, sorted: seq<Candidate>, r: seq<Candidate>)
    requires Lists(conns, sorted) && Descending(sorted)
    requires forall i | 0 <= i < |sorted| :: sorted[i].diff.None?
    requires |sorted| <= 1 ==> r == sorted
    requires |sorted| > 1 ==> r == [sorted[0].(diff := Some(Lead(sorted[0].stats, sorted[1].stats)))] + sorted[1..]
    ensures IsRanking(conns, r)
  {
    SameServers(conns, sorted, r);
  }

  lemma SameServers(conns: seq<Conn>, r: seq<Candidate>, r': seq<Candidate>)
    requires Lists(conns, r) && Descending(r) && |r'| == |r|
    requires forall i | 0 <= i < |r| :: r'[i].server == r[i].server && r'[i].stats == r[i].stats
    ensures Lists(conns, r') && Descending(r')
  {
  }

  method CandidateRankings(connections: map<string, seq<Conn>>) returns (stat: map<string, seq<Candidate>>)
    ensures stat.Keys == connections.Keys
    ensures forall c | c in connections :: IsRanking(connections[c], stat[c])
  {
    stat := map[];
    var rest := connections.Keys;
    ghost var done: set<string> := {};
    while rest != {}
      invariant done !! rest && done + rest == connections.Keys && stat.Keys == done
      invariant forall c | c in stat :: IsRanking(connections[c], stat[c])
      decreases rest
    {
      var client :| client in rest;
      var servers := GetAllServers(connections[client]);
      SetSum.MoveOne(done, rest, client);
      SetSum.PutKeys(stat, client, servers);
      stat := stat[client := servers];
      rest, done := rest - {client}, done + {client};
    }
  }
}
