/** The text of the trace: what the proxy prints, the logger appends and the analyzer parses. */
module TraceFormat {
  import opened Basics

  // ---------------------------------------------------------------- numbers

  predicate IsDigit(c: char) { '0' <= c <= '9' }

  function Digit(d: nat): (c: char)
    requires d < 10
    ensures IsDigit(c) && DigitValue(c) == d
  {
    '0' + d as char
  }

  function DigitValue(c: char): nat
    requires IsDigit(c)
  {
    c as int - '0' as int
  }

  predicate AllDigits(s: string) {
    forall i | 0 <= i < |s| :: IsDigit(s[i])
  }

  function Pow10(k: nat): nat {
    if k == 0 then 1 else 10 * Pow10(k - 1)
  }

  /** printf("%ld") of a number that is not negative. */
  function Decimal(n: nat): (s: string)
    ensures AllDigits(s) && |s| >= 1
  {
    if n < 10 then [Digit(n)] else Decimal(n / 10) + [Digit(n % 10)]
  }

  function Zeros(k: nat): (s: string)
    ensures |s| == k && AllDigits(s)
  {
    if k == 0 then "" else "0" + Zeros(k - 1)
  }

  /** printf("%06ld"): padded, never cut. */
  function Padded6(n: nat): (s: string)
    ensures AllDigits(s) && |s| >= 6
  {
    var d := Decimal(n);
    if |d| < 6 then Zeros(6 - |d|) + d else d
  }

  function Value(s: string): nat
    requires AllDigits(s)
  {
    if s == "" then 0 else 10 * Value(s[..|s| - 1]) + DigitValue(s[|s| - 1])
  }

  lemma {:induction false} ValueDecimal(n: nat)
    ensures Value(Decimal(n)) == n
  {
    if n >= 10 {
      ValueDecimal(n / 10);
      assert Decimal(n)[..|Decimal(n)| - 1] == Decimal(n / 10);
    }
  }

  lemma NextDigit(v: nat, p: nat, w: nat, d: nat)
    ensures 10 * (v * p + w) + d == v * (10 * p) + (10 * w + d)
  {
  }

  lemma {:induction false} ValueConcat(a: string, b: string)
    requires AllDigits(a) && AllDigits(b)
    ensures Value(a + b) == Value(a) * Pow10(|b|) + Value(b)
    decreases |b|
  {
    if b == "" {
      assert a + b == a;
    } else {
      var b' := b[..|b| - 1];
      ValueConcat(a, b');
      assert (a + b)[..|a + b| - 1] == a + b';
      NextDigit(Value(a), Pow10(|b'|), Value(b'), DigitValue(b[|b| - 1]));
      assert Value(a + b) == 10 * Value(a + b') + DigitValue(b[|b| - 1]);
    }
  }

  lemma {:induction false} ValueZeros(k: nat)
    ensures Value(Zeros(k)) == 0
  {
    if k > 0 {
      ValueZeros(k - 1);
      ValueConcat("0", Zeros(k - 1));
      assert Value("0") == 0;
    }
  }

  lemma {:induction false} DecimalLength(n: nat, k: nat)
    requires 1 <= k && n < Pow10(k)
    ensures |Decimal(n)| <= k
  {
    if n >= 10 {
      DecimalLength(n / 10, k - 1);
    }
  }

  lemma PaddedLength(usec: nat)
    requires usec < 1000000
    ensures |Padded6(usec)| == 6 && Value(Padded6(usec)) == usec
  {
    assert Pow10(6) == 1000000;
    DecimalLength(usec, 6);
    ValueDecimal(usec);
    var d := Decimal(usec);
    if |d| < 6 {
      ValueConcat(Zeros(6 - |d|), d);
      ValueZeros(6 - |d|);
    }
  }

  /** The printed timestamp reads back as microseconds. */
  lemma TimestampValue(sec: nat, usec: nat)
    requires usec < 1000000
    ensures Value(Decimal(sec) + Padded6(usec)) == sec * 1000000 + usec
  {
    PaddedLength(usec);
    ValueDecimal(sec);
    ValueConcat(Decimal(sec), Padded6(usec));
    assert Pow10(6) == 1000000;
  }

  /** Comparing the printed numbers is comparing the clock readings. */
  lemma TimestampOrder(sec: nat, usec: nat, sec': nat, usec': nat)
    requires usec < 1000000 && usec' < 1000000
    ensures (Value(Decimal(sec) + Padded6(usec)) < Value(Decimal(sec') + Padded6(usec'))) <==>
            (sec < sec' || (sec == sec' && usec < usec'))
    ensures (Decimal(sec) + Padded6(usec) == Decimal(sec') + Padded6(usec')) <==> (sec == sec' && usec == usec')
  {
    TimestampValue(sec, usec);
    TimestampValue(sec', usec');
  }

  /** What Python's int() strips: the blank, and the five characters from tab to return. */
  predicate IsSpace(c: char): (b: bool)
    ensures b <==> c == ' ' || '\t' <= c <= '\r'
  {
    c in {' ', '\t', '\n', '\r', '\U{000B}', '\U{000C}'}
  }

  function StripLeft(s: string): string {
    if s != "" && IsSpace(s[0]) then StripLeft(s[1..]) else s
  }

  function StripRight(s: string): string {
    if s != "" && IsSpace(s[|s| - 1]) then StripRight(s[..|s| - 1]) else s
  }

  /** Digits after at most one sign. */
  function SignedInt(t: string): Option<int> {
    var signed := t != "" && t[0] in {'+', '-'};
    var digits := if signed then t[1..] else t;
    if digits == "" || !AllDigits(digits) then None
    else
      var v: int := Value(digits);
      Some(if signed && t[0] == '-' then -v else v)
  }

  /** Python's int(): surrounding white space and one sign are allowed; None is the ValueError. */
  function ParseInt(s: string): Option<int> {
    SignedInt(StripLeft(StripRight(s)))
  }

  lemma ParseIntLine(digits: string)
    requires digits != "" && AllDigits(digits)
    ensures ParseInt(digits + "\n") == Some(Value(digits))
  {
    var s := digits + "\n";
    assert s[..|s| - 1] == digits;
    assert !IsSpace(digits[|digits| - 1]) && !IsSpace(digits[0]);
    assert StripRight(s) == StripRight(digits) == digits;
  }

  predicate AllSpace(s: string) {
    forall i | 0 <= i < |s| :: IsSpace(s[i])
  }

  lemma {:induction false} StripLeftSpace(a: string, t: string)
    requires AllSpace(a) && (t == "" || !IsSpace(t[0]))
    ensures StripLeft(a + t) == t
    decreases |a|
  {
    if a != "" {
      assert (a + t)[1..] == a[1..] + t;
      StripLeftSpace(a[1..], t);
    } else {
      assert a + t == t;
    }
  }

  lemma {:induction false} StripRightSpace(t: string, b: string)
    requires AllSpace(b) && (t == "" || !IsSpace(t[|t| - 1]))
    ensures StripRight(t + b) == t
    decreases |b|
  {
    if b != "" {
      assert (t + b)[..|t + b| - 1] == t + b[..|b| - 1];
      StripRightSpace(t, b[..|b| - 1]);
    } else {
      assert t + b == t;
    }
  }

  lemma {:induction false} StripLeftParts(s: string) returns (a: string)
    ensures s == a + StripLeft(s) && AllSpace(a)
    ensures StripLeft(s) != "" ==> !IsSpace(StripLeft(s)[0])
    decreases |s|
  {
    if s != "" && IsSpace(s[0]) {
      a := StripLeftParts(s[1..]);
      a := [s[0]] + a;
    } else {
      a := "";
    }
  }

  lemma {:induction false} StripRightParts(s: string) returns (b: string)
    ensures s == StripRight(s) + b && AllSpace(b)
    decreases |s|
  {
    if s != "" && IsSpace(s[|s| - 1]) {
      b := StripRightParts(s[..|s| - 1]);
      b := b + [s[|s| - 1]];
    } else {
      b := "";
    }
  }

  /** The grammar of int(): space, at most one sign, digits, space. */
  predicate Spells(a: string, sign: string, digits: string, b: string, v: int) {
    && AllSpace(a) && AllSpace(b) && sign in {"", "+", "-"} && digits != "" && AllDigits(digits)
    && (sign == "-" ==> v + Value(digits) == 0) && (sign != "-" ==> v == Value(digits))
  }

  lemma SignedSpelled(sign: string, digits: string, v: int)
    requires Spells("", sign, digits, "", v)
    ensures SignedInt(sign + digits) == Some(v)
  {
    var t := sign + digits;
    if sign != "" {
      assert t[0] == sign[0] && t[1..] == digits;
    } else {
      assert t == digits && IsDigit(t[0]);
    }
  }

  lemma SpelledIsParsed(a: string, sign: string, digits: string, b: string, v: int)
    requires Spells(a, sign, digits, b, v)
    ensures ParseInt(a + (sign + digits) + b) == Some(v)
  {
    var t := sign + digits;
    SignedSpelled(sign, digits, v);
    assert !IsSpace(t[0]) && t[|t| - 1] == digits[|digits| - 1];
    assert (a + t)[|a + t| - 1] == t[|t| - 1];
    StripRightSpace(a + t, b);
    StripLeftSpace(a, t);
  }

  lemma SignedIsSpelled(t: string) returns (sign: string, digits: string)
    requires SignedInt(t).Some?
    ensures t == sign + digits && Spells("", sign, digits, "", SignedInt(t).value)
  {
    if t[0] in {'+', '-'} {
      sign, digits := [t[0]], t[1..];
    } else {
      sign, digits := "", t;
    }
  }

  lemma ParsedIsSpelled(s: string) returns (a: string, sign: string, digits: string, b: string)
    requires ParseInt(s).Some?
    ensures s == a + (sign + digits) + b && Spells(a, sign, digits, b, ParseInt(s).value)
  {
    b := StripRightParts(s);
    a := StripLeftParts(StripRight(s));
    sign, digits := SignedIsSpelled(StripLeft(StripRight(s)));
  }

  // ----------------------------------------------------------------- fields

  /** Python's split: always at least one field. */
  function Split(s: string, sep: char): (fields: seq<string>)
    ensures |fields| >= 1
  {
    if s == "" then [""]
    else
      var rest := Split(s[1..], sep);
      if s[0] == sep then [""] + rest else [[s[0]] + rest[0]] + rest[1..]
  }

  lemma {:induction false} SplitField(field: string, rest: string, sep: char)
    requires sep !in field
    ensures Split(field + [sep] + rest, sep) == [field] + Split(rest, sep)
    decreases |field|
  {
    if field == "" {
      assert (field + [sep] + rest)[1..] == rest;
    } else {
      SplitField(field[1..], rest, sep);
      assert [field[0]] + field[1..] == field;
      assert (field + [sep] + rest)[1..] == field[1..] + [sep] + rest;
    }
  }

  lemma {:induction false} SplitLast(field: string, sep: char)
    requires sep !in field
    ensures Split(field, sep) == [field]
    decreases |field|
  {
    if field != "" {
      SplitLast(field[1..], sep);
      assert [field[0]] + field[1..] == field;
    }
  }

  function Join(fields: seq<string>, sep: char): string
    requires fields != []
  {
    if |fields| == 1 then fields[0] else fields[0] + [sep] + Join(fields[1..], sep)
  }

  predicate Without(fields: seq<string>, sep: char) {
    forall f | f in fields :: sep !in f
  }

  /** Splitting is the only way to write a text as fields without the separator. */
  lemma {:induction false} SplitJoin(s: string, sep: char)
    ensures Join(Split(s, sep), sep) == s && Without(Split(s, sep), sep)
    decreases |s|
  {
    if s != "" {
      SplitJoin(s[1..], sep);
      var rest := Split(s[1..], sep);
      if s[0] == sep {
        assert Split(s, sep)[1..] == rest;
      } else if |rest| > 1 {
        assert Split(s, sep)[1..] == rest[1..];
        assert s == [s[0]] + (rest[0] + [sep] + Join(rest[1..], sep));
      }
    }
  }

  lemma {:induction false} JoinSplit(fields: seq<string>, sep: char)
    requires fields != [] && Without(fields, sep)
    ensures Split(Join(fields, sep), sep) == fields
    decreases |fields|
  {
    assert fields[0] in fields;
    if |fields| == 1 {
      SplitLast(fields[0], sep);
    } else {
      JoinSplit(fields[1..], sep);
      SplitField(fields[0], Join(fields[1..], sep), sep);
    }
  }

  // ------------------------------------------------------------------ lines

  /** Python's readlines: every line keeps its newline; a last line may lack it. */
  function Lines(text: string): seq<string> {
    if text == "" then []
    else
      var rest := Lines(text[1..]);
      if text[0] == '\n' || rest == [] then [[text[0]]] + rest
      else [[text[0]] + rest[0]] + rest[1..]
  }

  lemma {:induction false} FirstLine(line: string, rest: string)
    requires '\n' !in line
    ensures Lines(line + "\n" + rest) == [line + "\n"] + Lines(rest)
    decreases |line|
  {
    if line == "" {
      assert (line + "\n" + rest)[1..] == rest;
      assert line + "\n" == ['\n'];
    } else {
      FirstLine(line[1..], rest);
      assert [line[0]] + (line[1..] + "\n") == line + "\n";
      assert (line + "\n" + rest)[1..] == line[1..] + "\n" + rest;
    }
  }

  /** With FirstLine this covers every text: a last line may lack its newline. */
  lemma {:induction false} LastLine(line: string)
    requires line != "" && '\n' !in line
    ensures Lines(line) == [line]
    decreases |line|
  {
    if |line| == 1 {
      assert line[1..] == "" && [line[0]] == line;
    } else {
      LastLine(line[1..]);
      assert [line[0]] + line[1..] == line;
    }
  }

  // ---------------------------------------------------------------- records

  datatype Side = CLIENT | SERVER

  /** What connectionParams returns for a line. */
  datatype Entry = Entry(side: Side, hostname: string, time: int)

  /** Python's connectionParams; None stands for the IndexError or ValueError. */
  function ConnectionParams(line: string): Option<Entry> {
    var params := Split(line, ';');
    if |params| < 3 then None
    else
      match ParseInt(params[2])
      case None => None
      case Some(time) => Some(Entry(if params[0] == "c" then CLIENT else SERVER, params[1], time))
  }

  /** What a line must look like to be read as an entry. */
  predicate Reads(fields: seq<string>, line: string, e: Entry) {
    && |fields| >= 3 && Without(fields, ';') && Join(fields, ';') == line
    && (e.side == CLIENT <==> fields[0] == "c") && e.hostname == fields[1] && ParseInt(fields[2]) == Some(e.time)
  }

  /** A line is read exactly if it has three or more fields and the third is a number. */
  lemma ConnectionParamsExactly(line: string, e: Entry)
    ensures ConnectionParams(line) == Some(e) <==> exists fields :: Reads(fields, line, e)
  {
    var params := Split(line, ';');
    SplitJoin(line, ';');
    if ConnectionParams(line) == Some(e) {
      assert Reads(params, line, e);
    }
    if fields :| Reads(fields, line, e) {
      JoinSplit(fields, ';');
      assert fields == params;
    }
  }

  /** One clock reading of a proxy. */
  datatype Record = Record(serverMode: bool, hostname: string, sec: nat, usec: nat)

  const HOSTNAME_SPACE := 256
  const LONG_LIMIT := 0x8000_0000_0000_0000

  /** gethostname fits its space with the terminator, and the clock is a struct timeval. */
  predicate ValidRecord(r: Record) {
    && |r.hostname| < HOSTNAME_SPACE && ';' !in r.hostname && '\n' !in r.hostname
    && r.sec < LONG_LIMIT && r.usec < 1000000
  }

  function Stamp(r: Record): string {
    Decimal(r.sec) + Padded6(r.usec)
  }

  function SideTag(serverMode: bool): (s: string)
    ensures |s| == 1 && ';' !in s && '\n' !in s
    ensures s == "c" <==> !serverMode
  {
    if serverMode then "s" else "c"
  }

  function BuildTracePackage(r: Record): string {
    SideTag(r.serverMode) + ";" + r.hostname + ";" + (Stamp(r) + "\n")
  }

  function EntryOf(r: Record): Entry {
    Entry(if r.serverMode then SERVER else CLIENT, r.hostname, r.sec * 1000000 + r.usec)
  }

  lemma DigitsAreNeither(s: string)
    requires AllDigits(s)
    ensures ';' !in s && '\n' !in s
  {
  }

  lemma PackageFields(side: string, hostname: string, last: string)
    requires ';' !in side && ';' !in hostname && ';' !in last
    ensures Split(side + ";" + hostname + ";" + last, ';') == [side, hostname, last]
  {
    SplitLast(last, ';');
    SplitField(hostname, last, ';');
    SplitField(side, hostname + ";" + last, ';');
    assert side + ";" + hostname + ";" + last == side + ";" + (hostname + ";" + last);
  }

  lemma LineParses(line: string, side: string, hostname: string, last: string, time: int)
    requires line == side + ";" + hostname + ";" + last
    requires ';' !in side && ';' !in hostname && ';' !in last && ParseInt(last) == Some(time)
    ensures ConnectionParams(line) == Some(Entry(if side == "c" then CLIENT else SERVER, hostname, time))
  {
    PackageFields(side, hostname, last);
  }

  lemma RecordRoundTrip(r: Record)
    requires ValidRecord(r)
    ensures ConnectionParams(BuildTracePackage(r)) == Some(EntryOf(r))
  {
    StampParses(r);
    LineParses(BuildTracePackage(r), SideTag(r.serverMode), r.hostname, Stamp(r) + "\n", EntryOf(r).time);
  }

  lemma StampParses(r: Record)
    requires r.usec < 1000000
    ensures ParseInt(Stamp(r) + "\n") == Some(r.sec * 1000000 + r.usec)
    ensures ';' !in Stamp(r) + "\n"
  {
    DigitsAreNeither(Stamp(r));
    ParseIntLine(Stamp(r));
    TimestampValue(r.sec, r.usec);
  }

  /** A package fits one datagram. */
  lemma PackageFits(r: Record)
    requires ValidRecord(r)
    ensures 1 <= |BuildTracePackage(r)| <= PAGE_SIZE
  {
    assert Pow10(6) == 1_000_000;
    assert Pow10(12) == 1_000_000_000_000;
    assert Pow10(18) == 1_000_000_000_000_000_000;
    assert Pow10(19) == 10 * Pow10(18);
    DecimalLength(r.sec, 19);
    PaddedLength(r.usec);
  }

  function Entries(rs: seq<Record>): seq<Entry> {
    if rs == [] then [] else [EntryOf(rs[0])] + Entries(rs[1..])
  }

  /** The analyzer's reading of a file: None if some line does not parse. */
  function ParseLines(lines: seq<string>): Option<seq<Entry>> {
    if lines == [] then Some([])
    else
      match (ConnectionParams(lines[0]), ParseLines(lines[1..]))
      case (Some(e), Some(es)) => Some([e] + es)
      case _ => None
  }

  // ----------------------------------------------------------------- logger

  /** What one recv hands over: at most a page of the datagram. */
  function Page(datagram: string): (r: string)
    ensures r <= datagram && (r == datagram || |r| == 4096 < |datagram|)
  {
    if |datagram| <= PAGE_SIZE then datagram else datagram[..PAGE_SIZE]
  }

  /** A UDP event: whether it is readable, and what recv returns (None: an error). */
  datatype Datagram = Datagram(readable: bool, payload: Option<string>)

  function Appended(d: Datagram): string {
    if d.readable && d.payload.Some? then Page(d.payload.value) else ""
  }

  function AppendedAll(ds: seq<Datagram>): string {
    if ds == [] then "" else Appended(ds[0]) + AppendedAll(ds[1..])
  }

  /** The datagrams that arrive are the printed records, in order, between any number of
      spurious events, failed receives and empty datagrams. */
  predicate Carries(ds: seq<Datagram>, rs: seq<Record>)
    decreases |ds|
  {
    if ds == [] then rs == []
    else if ds[0].readable && ds[0].payload.Some? && ds[0].payload.value != "" then
      rs != [] && ds[0].payload.value == BuildTracePackage(rs[0]) && Carries(ds[1..], rs[1..])
    else Carries(ds[1..], rs)
  }

  /** Main round trip: any list of records, printed, sent, logged datagram by datagram into an
      empty file, split into lines and parsed, is the same list. */
  lemma {:induction false} PipelineRoundTrip(ds: seq<Datagram>, rs: seq<Record>)
    requires forall r | r in rs :: ValidRecord(r)
    requires Carries(ds, rs)
    ensures ParseLines(Lines(AppendedAll(ds))) == Some(Entries(rs))
    decreases |ds|
  {
    if ds == [] {
    } else if Appended(ds[0]) == "" {
      PipelineRoundTrip(ds[1..], rs);
      assert AppendedAll(ds) == AppendedAll(ds[1..]);
    } else {
      var r, rest := rs[0], AppendedAll(ds[1..]);
      assert r in rs;
      PackageFits(r);
      PackageIsLine(r, rest);
      RecordRoundTrip(r);
      PipelineRoundTrip(ds[1..], rs[1..]);
    }
  }

  lemma PackageIsLine(r: Record, rest: string)
    requires ValidRecord(r)
    ensures Lines(BuildTracePackage(r) + rest) == [BuildTracePackage(r)] + Lines(rest)
  {
    var body := SideTag(r.serverMode) + ";" + r.hostname + ";" + Stamp(r);
    DigitsAreNeither(Stamp(r));
    FirstLine(body, rest);
    assert BuildTracePackage(r) == body + "\n";
  }

  class LoggerServer {
    var goodData: int
    var endread: int
    var log: string

    constructor ()
      ensures log == "" && goodData == 0 && endread == 0
    {
      goodData, endread, log := 0, 0, "";
    }

    method Activate(d: Datagram)
      modifies this
      ensures log == old(log) + Appended(d)
      ensures !d.readable || d.payload.None? ==> log == old(log)
      ensures d.readable && d.payload.Some? && |d.payload.value| <= 4096 ==> log == old(log) + d.payload.value
      ensures d.readable && d.payload.Some? && |d.payload.value| > 4096 ==> log == old(log) + d.payload.value[..4096]
      ensures d.readable ==> endread == 0 && goodData == (if d.payload.Some? then |Appended(d)| else -1)
      ensures !d.readable ==> endread == old(endread) && goodData == old(goodData)
    {
      if d.readable {
        endread := 0;
        var buf := Appended(d);
        goodData := if d.payload.Some? then |buf| else -1;
        if goodData > 0 {
          log := log + buf;
        }
      }
    }

    method Ready(events: seq<Datagram>)
      modifies this
      ensures log == old(log) + AppendedAll(events)
    {
      var i := 0;
      while i < |events|
        invariant 0 <= i <= |events|
        invariant log + AppendedAll(events[i..]) == old(log) + AppendedAll(events)
      {
        ghost var before := log;
        Activate(events[i]);
        assert events[i..][1..] == events[i + 1..];
        assert before + (Appended(events[i]) + AppendedAll(events[i + 1..])) == log + AppendedAll(events[i + 1..]);
        i := i + 1;
      }
    }
  }
}
