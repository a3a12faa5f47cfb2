/** The servers' own logs: written line by line, read back into the table of real connections. */
module GroundTruth {
  import opened Basics
  import opened TraceFormat

  /** One line of the log of `server`. */
  datatype ServerRecord = ServerRecord(client: string, server: string, stamp: string)

  type Table = map<string, map<string, seq<string>>>

  /** Append under the client's server; any other shape of the entry is an exception, and the
      handler starts the client over. */
  function Noted(out: Table, r: ServerRecord): Table {
    if r.client in out && r.server in out[r.client] then
      out[r.client := out[r.client][r.server := out[r.client][r.server] + [r.stamp]]]
    else
      out[r.client := map[r.server := [r.stamp]]]
  }

  function TableOf(history: seq<ServerRecord>): Table {
    if history == [] then map[] else Noted(TableOf(history[..|history| - 1]), history[|history| - 1])
  }

  // -------------------------------------------------------- what it holds

  function RecordsOf(history: seq<ServerRecord>, c: string): seq<ServerRecord> {
    if history == [] then []
    else
      var r := history[|history| - 1];
      RecordsOf(history[..|history| - 1], c) + if r.client == c then [r] else []
  }

  /** Where the last unbroken run under one server begins. */
  function RunStart(rs: seq<ServerRecord>): (k: nat)
    requires rs != []
    ensures k < |rs| && forall i | k <= i < |rs| :: rs[i].server == rs[|rs| - 1].server
    ensures k > 0 ==> rs[k - 1].server != rs[|rs| - 1].server
  {
    var n := |rs| - 1;
    if n == 0 || rs[n - 1].server != rs[n].server then n else RunStart(rs[..n])
  }

  function Stamps(rs: seq<ServerRecord>): (s: seq<string>)
    ensures |s| == |rs| && forall i | 0 <= i < |rs| :: s[i] == rs[i].stamp
  {
    if rs == [] then [] else Stamps(rs[..|rs| - 1]) + [rs[|rs| - 1].stamp]
  }

  /** The entry of a client: its latest server, with its longest trailing run there. */
  function Trailing(rs: seq<ServerRecord>): map<string, seq<string>>
    requires rs != []
  {
    map[rs[|rs| - 1].server := Stamps(rs[RunStart(rs)..])]
  }

  /** What one more record does to the entry of its client. */
  function EntryNext(was: seq<ServerRecord>, r: ServerRecord): map<string, seq<string>> {
    if was != [] && was[|was| - 1].server == r.server then map[r.server := Trailing(was)[r.server] + [r.stamp]]
    else map[r.server := [r.stamp]]
  }

  lemma RunStartNext(rs: seq<ServerRecord>, r: ServerRecord)
    ensures RunStart(rs + [r]) == if rs != [] && rs[|rs| - 1].server == r.server then RunStart(rs) else |rs|
  {
    assert (rs + [r])[..|rs|] == rs;
  }

  lemma StampsNext(rs: seq<ServerRecord>, r: ServerRecord)
    ensures Stamps(rs + [r]) == Stamps(rs) + [r.stamp]
  {
    assert (rs + [r])[..|rs|] == rs;
  }

  lemma TailNext(rs: seq<ServerRecord>, r: ServerRecord, k: nat)
    requires k <= |rs|
    ensures Stamps((rs + [r])[k..]) == Stamps(rs[k..]) + [r.stamp]
  {
    assert (rs + [r])[k..] == rs[k..] + [r];
    StampsNext(rs[k..], r);
  }

  lemma TrailingNext(rs: seq<ServerRecord>, r: ServerRecord)
    ensures Trailing(rs + [r]) == EntryNext(rs, r)
  {
    RunStartNext(rs, r);
    TailNext(rs, r, RunStart(rs + [r]));
    assert (rs + [r])[|rs + [r]| - 1] == r;
    assert Stamps(rs[|rs|..]) + [r.stamp] == [r.stamp];
  }

  lemma NotedEntry(out: Table, r: ServerRecord, was: seq<ServerRecord>)
    requires r.client in out <==> was != []
    requires r.client in out ==> out[r.client] == Trailing(was)
    ensures r.client in Noted(out, r) && Noted(out, r)[r.client] == EntryNext(was, r)
  {
  }

  /** Main result: after any history each client that occurs has exactly one server, that of its
      latest record, holding exactly its longest trailing run. */
  lemma {:induction false} TableMeaning(history: seq<ServerRecord>, c: string)
    ensures c in TableOf(history) <==> RecordsOf(history, c) != []
    ensures c in TableOf(history) ==> TableOf(history)[c] == Trailing(RecordsOf(history, c))
    decreases |history|
  {
    if history != [] {
      var init, r := history[..|history| - 1], history[|history| - 1];
      TableMeaning(init, c);
      if r.client == c {
        NotedEntry(TableOf(init), r, RecordsOf(init, c));
        TrailingNext(RecordsOf(init, c), r);
      } else {
        assert RecordsOf(history, c) == RecordsOf(init, c);
      }
    }
  }

  /** Nothing of a client is dropped exactly when all its records are under one server. */
  lemma NothingDroppedExactly(history: seq<ServerRecord>, c: string)
    requires c in TableOf(history)
    ensures var rs := RecordsOf(history, c);
            rs != [] &&
            (TableOf(history)[c] == map[rs[|rs| - 1].server := Stamps(rs)] <==>
             forall i, j | 0 <= i < j < |rs| :: rs[i].server == rs[j].server)
  {
    TableMeaning(history, c);
    var rs := RecordsOf(history, c);
    var s, k := rs[|rs| - 1].server, RunStart(rs);
    assert rs[0..] == rs;
    if k > 0 {
      assert |Trailing(rs)[s]| < |Stamps(rs)|;
      assert rs[k - 1].server != rs[|rs| - 1].server;
    }
  }

  // ----------------------------------------------------------------- text

  /** What _simpletcp_logServerConnection writes. */
  function ServerLine(client: string, sec: nat, usec: nat): string {
    client + ";" + (Decimal(sec) + Padded6(usec)) + "\n"
  }

  /** Python's unpacking of x[:-1].split(';'): exactly two fields, else a ValueError. */
  function SplitServerLine(line: string): Option<(string, string)>
  {
    var fields := Split(if line == "" then "" else line[..|line| - 1], ';');
    if |fields| == 2 then Some((fields[0], fields[1])) else None
  }

  lemma ServerLineRoundTrip(client: string, sec: nat, usec: nat)
    requires ';' !in client
    ensures SplitServerLine(ServerLine(client, sec, usec)) == Some((client, Decimal(sec) + Padded6(usec)))
  {
    var stamp, line := Decimal(sec) + Padded6(usec), ServerLine(client, sec, usec);
    DigitsAreNeither(stamp);
    assert line[..|line| - 1] == client + ";" + stamp;
    SplitLast(stamp, ';');
    SplitField(client, stamp, ';');
  }

  /** A line is read exactly if it is two fields and one more character. */
  lemma SplitServerLineExactly(line: string, client: string, stamp: string)
    ensures SplitServerLine(line) == Some((client, stamp)) <==>
            ';' !in client && ';' !in stamp && line != "" && line[..|line| - 1] == client + ";" + stamp
  {
    var s := if line == "" then "" else line[..|line| - 1];
    SplitJoin(s, ';');
    var fields := Split(s, ';');
    if |fields| == 2 {
      assert s == fields[0] + ";" + fields[1] && fields[0] in fields && fields[1] in fields;
    }
    if ';' !in client && ';' !in stamp && s == client + ";" + stamp {
      JoinSplit([client, stamp], ';');
      assert [client, stamp][1..] == [stamp];
      assert Join([client, stamp], ';') == s;
    }
  }

  /** The records of one file; None if some line does not have two fields. */
  function FileRecords(server: string, lines: seq<string>): Option<seq<ServerRecord>>
  {
    if lines == [] then Some([])
    else
      match (SplitServerLine(lines[0]), FileRecords(server, lines[1..]))
      case (Some((client, stamp)), Some(rest)) => Some([ServerRecord(client, server, stamp)] + rest)
      case _ => None
  }

  /** Line by line, under the name of the file. */
  lemma {:induction false} FileRecordsMeaning(server: string, lines: seq<string>)
    ensures var records := FileRecords(server, lines);
            && (records.Some? <==> forall i | 0 <= i < |lines| :: SplitServerLine(lines[i]).Some?)
            && (records.Some? ==>
                  && |records.value| == |lines|
                  && forall i | 0 <= i < |lines| ::
                       records.value[i].server == server
                       && SplitServerLine(lines[i]) == Some((records.value[i].client, records.value[i].stamp)))
    decreases |lines|
  {
    if lines != [] {
      FileRecordsMeaning(server, lines[1..]);
    }
  }

  /** A connection as the server saw it. */
  datatype Seen = Seen(client: string, sec: nat, usec: nat)

  function SeenLine(s: Seen): string {
    ServerLine(s.client, s.sec, s.usec)
  }

  function ServerLog(seen: seq<Seen>): string {
    if seen == [] then "" else SeenLine(seen[0]) + ServerLog(seen[1..])
  }

  function SeenRecords(server: string, seen: seq<Seen>): seq<ServerRecord> {
    if seen == [] then []
    else [ServerRecord(seen[0].client, server, Decimal(seen[0].sec) + Padded6(seen[0].usec))] + SeenRecords(server, seen[1..])
  }

  /** A server's log reads back as the connections it logged. */
  lemma {:induction false} ServerLogRoundTrip(server: string, seen: seq<Seen>)
    requires forall s | s in seen :: ';' !in s.client && '\n' !in s.client
    ensures FileRecords(server, Lines(ServerLog(seen))) == Some(SeenRecords(server, seen))
    decreases |seen|
  {
    if seen != [] {
      var s := seen[0];
      assert s in seen;
      var body := s.client + ";" + (Decimal(s.sec) + Padded6(s.usec));
      DigitsAreNeither(Decimal(s.sec) + Padded6(s.usec));
      FirstLine(body, ServerLog(seen[1..]));
      assert ServerLine(s.client, s.sec, s.usec) == body + "\n";
      ServerLineRoundTrip(s.client, s.sec, s.usec);
      ServerLogRoundTrip(server, seen[1..]);
    }
  }

  // ---------------------------------------------------------------- reading

  /** The dictionary `out` of the analyzer's main program. */
  class RealConnections {
    var out: Table
    ghost var history: seq<ServerRecord>

    ghost predicate Valid()
      reads this
    {
      out == TableOf(history)
    }

    constructor ()
      ensures Valid() && out == map[] && history == []
    {
      out, history := map[], [];
    }

    method Note(r: ServerRecord)
      requires Valid()
      modifies this
      ensures Valid() && history == old(history) + [r]
    {
      if r.client in out && r.server in out[r.client] {
        out := out[r.client := out[r.client][r.server := out[r.client][r.server] + [r.stamp]]];
      } else {
        out := out[r.client := map[]];
        out := out[r.client := out[r.client][r.server := []]];
        out := out[r.client := out[r.client][r.server := out[r.client][r.server] + [r.stamp]]];
        assert [] + [r.stamp] == [r.stamp];
        assert out[r.client] == map[r.server := [r.stamp]];
      }
      history := history + [r];
      assert history[..|history| - 1] == old(history);
      assert out == Noted(old(out), r);
    }

    /** One file, line by line; false is the ValueError of a line without two fields. */
    method UpdateRealConnections(server: string, text: string) returns (ok: bool)
      requires Valid()
      modifies this
      ensures Valid()
      ensures ok <==> FileRecords(server, Lines(text)).Some?
      ensures ok ==> history == old(history) + FileRecords(server, Lines(text)).value
    {
      var lines := Lines(text);
      var i := 0;
      ghost var unread := FileRecords(server, lines);
      while i < |lines|
        invariant 0 <= i <= |lines| && Valid()
        invariant unread == FileRecords(server, lines[i..])
        invariant FileRecords(server, lines).Some? <==> unread.Some?
        invariant unread.Some? ==> history + unread.value == old(history) + FileRecords(server, lines).value
      {
        assert lines[i..][0] == lines[i] && lines[i..][1..] == lines[i + 1..];
        var fields := SplitServerLine(lines[i]);
        if fields.None? {
          return false;
        }
        ghost var next := FileRecords(server, lines[i + 1..]);
        var r := ServerRecord(fields.value.0, server, fields.value.1);
        assert next.Some? ==> history + unread.value == (history + [r]) + next.value;
        Note(r);
        unread := next;
        i := i + 1;
      }
      return true;
    }
  }
}
