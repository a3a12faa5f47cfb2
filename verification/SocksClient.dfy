/** The SOCKS5 client: a status variable driven by readiness events, reconnecting nconn times. */
module SocksClient {
  import opened Basics

  /** In the order of the source's enumeration, last to first step of a connection. */
  datatype Status =
    | DONE | CONNECTION_OK | CONNECTION_FAIL | CONNECTION_REQ
    | NEGOTIATION_FAIL | NEGOTIATION_OK | NEGOTIATION_REQ | INIT

  datatype Registration = Off | ForInput | ForOutput

  datatype Config = Config(
    hostname: seq<Byte>,
    serverIP: seq<Byte>,
    serverPort: seq<Byte>,
    sleepMin: int,
    sleepMax: int)

  /** How the process stands: an exit is the code's own, a zero divisor is fatal to it. */
  datatype Condition = Running | Exited | ZeroDivisor

  datatype ReadResult = Failed | Read(bytes: seq<Byte>)

  /** What one handled event did on the socket. */
  datatype Action = Wrote(bytes: seq<Byte>) | Replied(accepted: bool) | Closed

  datatype Client = Client(
    nconn: int,
    status: Status,
    open: bool,
    registered: Registration,
    sleeping: bool,
    isDone: bool,
    condition: Condition,
    trace: seq<Action>)

  datatype Event = Ready(out: bool, inp: bool, answer: ReadResult) | WakeUp

  // -------------------------------------------------------------- packets

  /** Version 5, one method, no authentication: section 3 of RFC 1928. */
  const GREETING: seq<Byte> := [5, 1, 0]

  /** Version 5, CONNECT, reserved, IPv4 and the destination: section 4 of RFC 1928. */
  function Request(c: Config): seq<Byte> {
    [5, 1, 0, 1] + c.serverIP + c.serverPort
  }

  // -------------------------------------------------------- as the proxy reads

  /** A client's greeting: the methods it offers. Section 3 of RFC 1928. */
  function ReadGreeting(b: seq<Byte>): Option<seq<Byte>> {
    if |b| >= 2 && b[0] == 5 && |b| - 2 == b[1] then Some(b[2..]) else None
  }

  /** A request to connect to an IPv4 destination. Section 4 of RFC 1928. */
  function ReadRequest(b: seq<Byte>): Option<(seq<Byte>, seq<Byte>)> {
    if |b| == 10 && b[0] == 5 && b[1] == 1 && b[2] == 0 && b[3] == 1 then Some((b[4..8], b[8..10])) else None
  }

  /** What a proxy makes of all that one connection writes: greeting, request, then data. */
  datatype Dialogue = Dialogue(methods: seq<Byte>, address: seq<Byte>, port: seq<Byte>, data: seq<Byte>)

  function ReadDialogue(b: seq<Byte>): Option<Dialogue> {
    if |b| < 2 || |b| - 12 < b[1] then None
    else
      var n: nat := b[1] as int + 2;
      match (ReadGreeting(b[..n]), ReadRequest(b[n..n + 10]))
      case (Some(methods), Some((address, port))) => Some(Dialogue(methods, address, port, b[n + 10..]))
      case _ => None
  }

  /** An IPv4 address and a port, as the source's fields of four and two bytes hold them. */
  predicate ProperConfig(c: Config) {
    |c.serverIP| == 4 && |c.serverPort| == 2
  }

  /** A proxy understands both packets: no authentication is offered, and the destination is the
      configured one. */
  lemma PacketsAreUnderstood(c: Config)
    requires ProperConfig(c)
    ensures ReadGreeting(GREETING) == Some([0])
    ensures ReadRequest(Request(c)) == Some((c.serverIP, c.serverPort))
    ensures ReadDialogue(GREETING + Request(c) + c.hostname) ==
            Some(Dialogue([0], c.serverIP, c.serverPort, c.hostname))
  {
    assert GREETING[2..] == [0];
    var r := Request(c);
    assert r[4..8] == c.serverIP && r[8..10] == c.serverPort;
    var b := GREETING + r + c.hostname;
    assert b[..3] == GREETING && b[3..13] == r && b[13..] == c.hostname;
  }

  // --------------------------------------------------------------- replies

  /** A read of at most `limit` bytes lands over what the buffer held before. */
  function Landed(buffer: seq<Byte>, bytes: seq<Byte>, limit: nat): (r: seq<Byte>)
    requires limit <= |buffer|
    ensures |r| == |buffer|
  {
    var got := if |bytes| <= limit then bytes else bytes[..limit];
    got + buffer[|got|..]
  }

  predicate NegotiationAccepted(answer: ReadResult) {
    answer.Read? && Landed(GREETING, answer.bytes, 2)[1] != 0xff
  }

  predicate RequestAccepted(c: Config, answer: ReadResult) {
    answer.Read? && Landed(Request(c), answer.bytes, |Request(c)|)[1] == 0
  }

  /** A reply that grants what was asked starts with version 5 and a zero: the method offered
      (section 3 of RFC 1928), or success (section 6). */
  predicate Grants(answer: ReadResult) {
    answer.Read? && |answer.bytes| >= 2 && answer.bytes[..2] == [5, 0]
  }

  /** Acceptance of a negotiation for every length of read: a shorter reply, even end of file,
      is accepted because the second byte is still the client's own. It accepts every granting
      reply, and exactly the stated ones besides. */
  lemma NegotiationReplies(answer: ReadResult)
    ensures NegotiationAccepted(answer) <==>
            answer.Read? && (|answer.bytes| < 2 || answer.bytes[1] != 0xff)
    ensures Grants(answer) ==> NegotiationAccepted(answer)
    ensures NegotiationAccepted(answer) && !Grants(answer) <==>
            answer.Read? &&
            (|answer.bytes| < 2 || (answer.bytes[1] != 0xff && (answer.bytes[0] != 5 || answer.bytes[1] != 0)))
  {
  }

  /** Acceptance of a request for every length of read: a shorter reply is rejected. The only
      replies accepted without granting are those of another version. */
  lemma RequestReplies(c: Config, answer: ReadResult)
    ensures RequestAccepted(c, answer) <==> answer.Read? && |answer.bytes| >= 2 && answer.bytes[1] == 0
    ensures Grants(answer) ==> RequestAccepted(c, answer)
    ensures RequestAccepted(c, answer) && !Grants(answer) <==>
            answer.Read? && |answer.bytes| >= 2 && answer.bytes[1] == 0 && answer.bytes[0] != 5
  {
  }

  /** The divisor of the random sleep time is zero. */
  predicate DividesByZero(c: Config) {
    (c.sleepMin != 0 || c.sleepMax != 0) && c.sleepMax - c.sleepMin == 0
  }

  // ------------------------------------------------------------ transitions

  function ClientWrite(cfg: Config, c: Client): Client {
    match c.status
    case INIT => c.(status := NEGOTIATION_REQ, trace := c.trace + [Wrote(GREETING)], registered := ForInput)
    case NEGOTIATION_OK => c.(status := CONNECTION_REQ, trace := c.trace + [Wrote(Request(cfg))], registered := ForInput)
    case CONNECTION_OK => c.(status := DONE, trace := c.trace + [Wrote(cfg.hostname)], registered := ForInput)
    case DONE => c.(trace := c.trace + [Wrote(cfg.hostname)], registered := ForInput)
    case _ => c.(condition := Exited)
  }

  function ClientRead(cfg: Config, c: Client, answer: ReadResult): Client {
    match c.status
    case NEGOTIATION_REQ =>
      var ok := NegotiationAccepted(answer);
      c.(status := if ok then NEGOTIATION_OK else NEGOTIATION_FAIL, trace := c.trace + [Replied(ok)], registered := ForOutput)
    case CONNECTION_REQ =>
      var ok := RequestAccepted(cfg, answer);
      c.(status := if ok then CONNECTION_OK else CONNECTION_FAIL, trace := c.trace + [Replied(ok)], registered := ForOutput)
    case DONE =>
      var closed := c.(registered := Off, open := false, trace := c.trace + [Closed]);
      if c.nconn > 1 then
        var again := closed.(status := INIT, nconn := c.nconn - 1);
        if DividesByZero(cfg) then again.(condition := ZeroDivisor) else again.(sleeping := true)
      else closed.(isDone := true)
    case _ => c.(condition := Exited)
  }

  function Activate(cfg: Config, c: Client, e: Event): Client {
    if c.condition != Running then c
    else
      match e
      case WakeUp => c.(open := true, sleeping := false, registered := ForOutput)
      case Ready(out, inp, answer) =>
        if out then ClientWrite(cfg, c) else if inp then ClientRead(cfg, c, answer) else c
  }

  function Start(nconn: int): Client {
    Client(nconn, INIT, true, ForOutput, false, false, Running, [])
  }

  function Run(cfg: Config, c: Client, events: seq<Event>): Client
    decreases |events|
  {
    if events == [] then c else Run(cfg, Activate(cfg, c, events[0]), events[1..])
  }

  /** Events report registered bits only, and at least one; the timer fires while sleeping. */
  predicate Enabled(c: Client, e: Event) {
    c.condition == Running &&
    match e
    case WakeUp => c.sleeping
    case Ready(out, inp, _) =>
      c.open && (out || inp) && (out ==> c.registered == ForOutput) && (inp ==> c.registered == ForInput)
  }

  predicate EnabledRun(cfg: Config, c: Client, events: seq<Event>)
    decreases |events|
  {
    events == [] || (Enabled(c, events[0]) && EnabledRun(cfg, Activate(cfg, c, events[0]), events[1..]))
  }

  // -------------------------------------------------------------- automaton

  predicate Rejected(s: Status) {
    s.NEGOTIATION_FAIL? || s.CONNECTION_FAIL?
  }

  /** Output readiness is awaited exactly before a write, input readiness before a read. */
  predicate Automaton(c: Client) {
    if c.open then
      && !c.sleeping && !c.isDone && c.condition != ZeroDivisor
      && c.registered == (if c.status in {NEGOTIATION_REQ, CONNECTION_REQ, DONE} then ForInput else ForOutput)
    else
      && c.registered == Off
      && (if c.sleeping || c.condition == ZeroDivisor then c.status == INIT && !c.isDone && c.nconn >= 1
          else c.status == DONE && c.isDone && c.nconn <= 1)
  }

  lemma StepKeepsAutomaton(cfg: Config, c: Client, e: Event)
    requires Automaton(c) && Enabled(c, e)
    ensures Automaton(Activate(cfg, c, e))
  {
  }

  /** No event reaches the reader's default case or the writer's DONE entry. The process exits
      exactly on the write event after a rejected reply, and divides by zero exactly when it
      would reconnect with equal sleep bounds that are not zero. */
  lemma ExitExactly(cfg: Config, c: Client, e: Event)
    requires Automaton(c) && Enabled(c, e)
    ensures e.Ready? && e.out ==> c.status != DONE
    ensures e.Ready? && !e.out ==> c.status in {NEGOTIATION_REQ, CONNECTION_REQ, DONE}
    ensures Activate(cfg, c, e).condition ==
            if Rejected(c.status) then Exited
            else if c.status == DONE && c.open && c.nconn > 1 && cfg.sleepMin == cfg.sleepMax != 0 then ZeroDivisor
            else Running
  {
  }

  function Rank(s: Status): nat {
    match s
    case DONE => 0
    case CONNECTION_OK => 1
    case CONNECTION_FAIL => 2
    case CONNECTION_REQ => 3
    case NEGOTIATION_FAIL => 4
    case NEGOTIATION_OK => 5
    case NEGOTIATION_REQ => 6
    case INIT => 7
  }

  function SocketRank(c: Client): nat {
    if c.sleeping then 2 else if c.open then 1 else 0
  }

  /** Every event lowers (nconn, status, socket) lexicographically, or ends the process. */
  lemma MeasureFalls(cfg: Config, c: Client, e: Event)
    requires Automaton(c) && Enabled(c, e)
    ensures var d := Activate(cfg, c, e);
            || d.condition == Exited
            || d.nconn < c.nconn
            || (d.nconn == c.nconn && Rank(d.status) < Rank(c.status))
            || (d.nconn == c.nconn && d.status == c.status && SocketRank(d) < SocketRank(c))
  {
  }

  /** The next event to expect: there is one until the client is done or has stopped. */
  function Expected(c: Client, answer: ReadResult): Event {
    if c.sleeping then WakeUp else Ready(c.registered == ForOutput, c.registered == ForInput, answer)
  }

  predicate Stuck(c: Client) {
    !Enabled(c, Expected(c, Failed))
  }

  lemma StuckExactly(c: Client, e: Event)
    requires Automaton(c)
    ensures Stuck(c) <==> c.isDone || c.condition != Running
    ensures Stuck(c) ==> !Enabled(c, e)
  {
  }

  // ------------------------------------------------------------- whole runs

  /** The six actions of one successful connection. */
  function Session(cfg: Config): (s: seq<Action>)
    ensures |s| == 6
  {
    [Wrote(GREETING), Replied(true), Wrote(Request(cfg)), Replied(true), Wrote(cfg.hostname), Closed]
  }

  function Sessions(cfg: Config, k: nat): (s: seq<Action>)
    ensures |s| == 6 * k
  {
    if k == 0 then [] else Sessions(cfg, k - 1) + Session(cfg)
  }

  function AtLeastOne(n: int): nat {
    if n < 1 then 1 else n
  }

  /** Connections finished, out of those asked for. */
  function Finished(n0: int, c: Client): int {
    AtLeastOne(n0) - (if c.isDone then 0 else AtLeastOne(c.nconn))
  }

  /** Actions of the current connection that went as intended. */
  function Phase(c: Client): nat {
    if c.isDone then 0
    else
      match c.status
      case INIT => 0
      case NEGOTIATION_REQ => 1
      case NEGOTIATION_FAIL => 1
      case NEGOTIATION_OK => 2
      case CONNECTION_REQ => 3
      case CONNECTION_FAIL => 3
      case CONNECTION_OK => 4
      case DONE => 5
  }

  /** The whole trace is determined by where the client stands. */
  predicate OnScript(cfg: Config, n0: int, c: Client) {
    && Finished(n0, c) >= 0
    && c.trace == Sessions(cfg, Finished(n0, c)) + Session(cfg)[..Phase(c)] + (if Rejected(c.status) then [Replied(false)] else [])
    && (DividesByZero(cfg) ==> c.nconn == if c.condition == ZeroDivisor then n0 - 1 else n0)
    && (c.condition == ZeroDivisor ==> DividesByZero(cfg) && n0 > 1)
  }

  lemma StartOnScript(cfg: Config, n0: int)
    ensures Automaton(Start(n0)) && OnScript(cfg, n0, Start(n0))
  {
    assert Session(cfg)[..0] == [] && Sessions(cfg, 0) == [];
  }

  lemma LastReadStaysOnScript(cfg: Config, n0: int, c: Client, e: Event)
    requires Automaton(c) && Enabled(c, e) && OnScript(cfg, n0, c) && e.Ready? && c.status == DONE
    ensures OnScript(cfg, n0, Activate(cfg, c, e))
  {
    var d, k := Activate(cfg, c, e), Finished(n0, c);
    assert Session(cfg)[..5] + [Closed] == Session(cfg);
    assert Session(cfg)[..0] == [];
    assert Finished(n0, d) == k + 1;
    assert d.trace == Sessions(cfg, k) + Session(cfg) == Sessions(cfg, k + 1);
  }

  lemma StepStaysOnScript(cfg: Config, n0: int, c: Client, e: Event)
    requires Automaton(c) && Enabled(c, e) && OnScript(cfg, n0, c)
    ensures OnScript(cfg, n0, Activate(cfg, c, e))
  {
    var d := Activate(cfg, c, e);
    var k, p := Finished(n0, c), Phase(c);
    if e.Ready? && !Rejected(c.status) {
      if c.status == DONE {
        LastReadStaysOnScript(cfg, n0, c, e);
      } else if Rejected(d.status) {
        assert d.trace == Sessions(cfg, k) + Session(cfg)[..p] + [Replied(false)];
      } else {
        assert Session(cfg)[..p + 1] == Session(cfg)[..p] + [Session(cfg)[p]];
        assert d.trace == c.trace + [Session(cfg)[p]];
      }
    }
  }

  function Wakes(events: seq<Event>): nat {
    if events == [] then 0 else (if events[0].WakeUp? then 1 else 0) + Wakes(events[1..])
  }

  function WakesLeft(c: Client): nat {
    if c.isDone then 0 else AtLeastOne(c.nconn) - (if c.sleeping || c.condition == ZeroDivisor then 0 else 1)
  }

  lemma {:induction false} RunStaysOnScript(cfg: Config, n0: int, c: Client, events: seq<Event>)
    requires Automaton(c) && EnabledRun(cfg, c, events) && OnScript(cfg, n0, c)
    ensures var d := Run(cfg, c, events);
            Automaton(d) && OnScript(cfg, n0, d)
    decreases |events|
  {
    if events != [] {
      StepKeepsAutomaton(cfg, c, events[0]);
      StepStaysOnScript(cfg, n0, c, events[0]);
      RunStaysOnScript(cfg, n0, Activate(cfg, c, events[0]), events[1..]);
    }
  }

  /** Each event either performs one action, or is a wake-up, or ends the process. */
  lemma {:induction false} EventsCounted(cfg: Config, c: Client, events: seq<Event>)
    requires Automaton(c) && EnabledRun(cfg, c, events)
    ensures var d := Run(cfg, c, events);
            && |events| == |d.trace| - |c.trace| + Wakes(events) + (if d.condition == Exited && c.condition != Exited then 1 else 0)
            && Wakes(events) == WakesLeft(c) - WakesLeft(d)
    decreases |events|
  {
    if events != [] {
      StepKeepsAutomaton(cfg, c, events[0]);
      EventsCounted(cfg, Activate(cfg, c, events[0]), events[1..]);
    }
  }

  predicate AllAccepted(trace: seq<Action>) {
    Replied(false) !in trace
  }

  /** How many connections the client gets to make: all, or one if it divides by zero. */
  function Completed(cfg: Config, n0: int): nat {
    if n0 > 1 && cfg.sleepMin == cfg.sleepMax != 0 then 1 else AtLeastOne(n0)
  }

  /** Main result: with every reply accepted, whatever was seen so far is a prefix of the script,
      and a run that cannot go on has written greeting, request and hostname once per connection,
      in six steps each plus one wake-up between connections. It is then done, unless the sleep
      time before the second connection divides by zero. */
  lemma WholeRun(cfg: Config, n0: int, events: seq<Event>)
    requires EnabledRun(cfg, Start(n0), events)
    requires AllAccepted(Run(cfg, Start(n0), events).trace)
    ensures var d, k := Run(cfg, Start(n0), events), Completed(cfg, n0);
            && d.trace <= Sessions(cfg, k) && d.condition != Exited
            && (Stuck(d) ==> d.trace == Sessions(cfg, k) && |events| == 6 * k + (k - 1) && Wakes(events) == k - 1)
            && (Stuck(d) ==> if n0 > 1 && cfg.sleepMin == cfg.sleepMax != 0 then d.condition == ZeroDivisor && !d.isDone
                             else d.condition == Running && d.isDone)
  {
    var d, k := Run(cfg, Start(n0), events), Completed(cfg, n0);
    StartOnScript(cfg, n0);
    RunStaysOnScript(cfg, n0, Start(n0), events);
    EventsCounted(cfg, Start(n0), events);
    NeverExitsAccepted(cfg, Start(n0), events);
    StuckExactly(d, WakeUp);
    if Stuck(d) {
      EndsOnScript(cfg, n0, d);
    } else {
      GoesOnOnScript(cfg, n0, d);
    }
  }

  /** The bytes written on each closed connection, after `written` on the one still open. */
  function Dialogues(trace: seq<Action>, written: seq<Byte>): seq<seq<Byte>>
    decreases |trace|
  {
    if trace == [] then []
    else
      match trace[0]
      case Wrote(bytes) => Dialogues(trace[1..], written + bytes)
      case Replied(_) => Dialogues(trace[1..], written)
      case Closed => [written] + Dialogues(trace[1..], [])
  }

  lemma {:induction false} DialoguesConcat(a: seq<Action>, b: seq<Action>, written: seq<Byte>)
    requires a != [] && a[|a| - 1] == Closed
    ensures Dialogues(a + b, written) == Dialogues(a, written) + Dialogues(b, [])
    decreases |a|
  {
    assert (a + b)[1..] == a[1..] + b;
    if |a| == 1 {
      assert a[1..] == [] && a[1..] + b == b;
    } else {
      match a[0] {
        case Wrote(bytes) => DialoguesConcat(a[1..], b, written + bytes);
        case Replied(_) => DialoguesConcat(a[1..], b, written);
        case Closed =>
          DialoguesConcat(a[1..], b, []);
          assert Dialogues(a, written) + Dialogues(b, []) == [written] + (Dialogues(a[1..], []) + Dialogues(b, []));
      }
    }
  }

  lemma SessionDialogue(cfg: Config)
    ensures Dialogues(Session(cfg), []) == [GREETING + Request(cfg) + cfg.hostname]
  {
    var s, r := Session(cfg), Request(cfg);
    assert [] + GREETING == GREETING;
    assert s[1..][1..] == s[2..] && s[2..][1..] == s[3..] && s[3..][1..] == s[4..] && s[4..][1..] == s[5..] && s[5..][1..] == [];
    assert Dialogues(s[5..], GREETING + r + cfg.hostname) == [GREETING + r + cfg.hostname];
    assert Dialogues(s[4..], GREETING + r) == Dialogues(s[5..], GREETING + r + cfg.hostname);
    assert Dialogues(s[2..], GREETING) == Dialogues(s[3..], GREETING + r) == Dialogues(s[4..], GREETING + r);
    assert Dialogues(s, []) == Dialogues(s[1..], GREETING) == Dialogues(s[2..], GREETING);
  }

  lemma {:induction false} SessionsDialogues(cfg: Config, k: nat)
    ensures |Dialogues(Sessions(cfg, k), [])| == k
    ensures forall i | 0 <= i < k :: Dialogues(Sessions(cfg, k), [])[i] == GREETING + Request(cfg) + cfg.hostname
  {
    if k > 0 {
      SessionsDialogues(cfg, k - 1);
      SessionDialogue(cfg);
      if k > 1 {
        assert Sessions(cfg, k - 1)[|Sessions(cfg, k - 1)| - 1] == Closed;
        DialoguesConcat(Sessions(cfg, k - 1), Session(cfg), []);
      } else {
        assert Sessions(cfg, 0) + Session(cfg) == Session(cfg);
      }
    }
  }

  /** Main result in the protocol's own terms: a run that cannot go on, with every reply
      accepted, has spoken to the proxy once per connection, and each time a proxy reads one
      offered method, no authentication, a request for the configured destination, and then
      the hostname and nothing else. */
  lemma WholeRunIsUnderstood(cfg: Config, n0: int, events: seq<Event>)
    requires EnabledRun(cfg, Start(n0), events) && Stuck(Run(cfg, Start(n0), events))
    requires AllAccepted(Run(cfg, Start(n0), events).trace) && ProperConfig(cfg)
    ensures var spoken := Dialogues(Run(cfg, Start(n0), events).trace, []);
            && |spoken| == Completed(cfg, n0)
            && forall i | 0 <= i < |spoken| ::
                 ReadDialogue(spoken[i]) == Some(Dialogue([0], cfg.serverIP, cfg.serverPort, cfg.hostname))
  {
    WholeRun(cfg, n0, events);
    SessionsDialogues(cfg, Completed(cfg, n0));
    PacketsAreUnderstood(cfg);
  }

  lemma GoesOnOnScript(cfg: Config, n0: int, d: Client)
    requires OnScript(cfg, n0, d) && d.condition == Running && !d.isDone && !Rejected(d.status)
    ensures d.trace <= Sessions(cfg, Completed(cfg, n0))
  {
    var f := Finished(n0, d);
    SessionsPrefix(cfg, f + 1, Completed(cfg, n0));
    assert Session(cfg)[..Phase(d)] <= Session(cfg);
    assert d.trace == Sessions(cfg, f) + Session(cfg)[..Phase(d)];
  }

  /** Where an accepted run comes to an end. */
  lemma EndsOnScript(cfg: Config, n0: int, d: Client)
    requires Automaton(d) && OnScript(cfg, n0, d) && AllAccepted(d.trace)
    requires d.condition == ZeroDivisor || (d.condition == Running && d.isDone)
    ensures Finished(n0, d) == Completed(cfg, n0) && d.trace == Sessions(cfg, Completed(cfg, n0))
    ensures d.condition == ZeroDivisor <==> n0 > 1 && DividesByZero(cfg)
    ensures d.condition == ZeroDivisor ==> !d.isDone
    ensures WakesLeft(d) == AtLeastOne(n0) - Completed(cfg, n0)
  {
    assert Session(cfg)[..0] == [];
    assert !Rejected(d.status);
  }

  lemma {:induction false} SessionsPrefix(cfg: Config, j: nat, k: nat)
    requires j <= k
    ensures Sessions(cfg, j) <= Sessions(cfg, k)
    decreases k
  {
    if j < k {
      SessionsPrefix(cfg, j, k - 1);
    }
  }

  lemma StepGrowsTrace(cfg: Config, c: Client, e: Event)
    ensures c.trace <= Activate(cfg, c, e).trace
  {
  }

  lemma {:induction false} TraceGrows(cfg: Config, c: Client, events: seq<Event>)
    requires EnabledRun(cfg, c, events)
    ensures c.trace <= Run(cfg, c, events).trace
    decreases |events|
  {
    if events != [] {
      StepGrowsTrace(cfg, c, events[0]);
      TraceGrows(cfg, Activate(cfg, c, events[0]), events[1..]);
    }
  }

  /** An exit needs a rejected reply first. */
  lemma {:induction false} NeverExitsAccepted(cfg: Config, c: Client, events: seq<Event>)
    requires Automaton(c) && EnabledRun(cfg, c, events) && c.condition != Exited
    requires Rejected(c.status) ==> Replied(false) in c.trace
    requires AllAccepted(Run(cfg, c, events).trace)
    ensures Run(cfg, c, events).condition != Exited
    decreases |events|
  {
    TraceGrows(cfg, c, events);
    if events != [] {
      var d := Activate(cfg, c, events[0]);
      ExitExactly(cfg, c, events[0]);
      StepKeepsAutomaton(cfg, c, events[0]);
      if Rejected(d.status) && !Rejected(c.status) {
        assert d.trace[|d.trace| - 1] == Replied(false);
      }
      NeverExitsAccepted(cfg, d, events[1..]);
    }
  }

  lemma {:induction false} SessionAt(cfg: Config, k: nat, j: nat)
    requires k < j
    ensures Sessions(cfg, j)[6 * k..6 * k + 6] == Session(cfg)
    decreases j
  {
    if k < j - 1 {
      SessionAt(cfg, k, j - 1);
      assert Sessions(cfg, j)[6 * k..6 * k + 6] == Sessions(cfg, j - 1)[6 * k..6 * k + 6];
    }
  }

  /** On any run, whatever the replies: the third write of a connection is the hostname, and it
      comes after an accepted negotiation and an accepted request. Accepted is the code's notion,
      spelled out by NegotiationReplies and RequestReplies. */
  lemma HostnameAfterBothReplies(cfg: Config, n0: int, events: seq<Event>, k: nat)
    requires EnabledRun(cfg, Start(n0), events)
    requires 6 * k + 4 < |Run(cfg, Start(n0), events).trace|
    ensures Run(cfg, Start(n0), events).trace[6 * k..6 * k + 5] == Session(cfg)[..5]
  {
    var d := Run(cfg, Start(n0), events);
    StartOnScript(cfg, n0);
    RunStaysOnScript(cfg, n0, Start(n0), events);
    if k < Finished(n0, d) {
      EarlierSession(cfg, n0, d, k);
    } else {
      LastSession(cfg, n0, d, k);
    }
  }

  lemma EarlierSession(cfg: Config, n0: int, d: Client, k: nat)
    requires OnScript(cfg, n0, d) && k < Finished(n0, d)
    ensures |d.trace| >= 6 * k + 6 && d.trace[6 * k..6 * k + 5] == Session(cfg)[..5]
  {
    var f := Finished(n0, d);
    SessionAt(cfg, k, f);
    assert Sessions(cfg, f) <= d.trace;
    assert d.trace[6 * k..6 * k + 5] == Sessions(cfg, f)[6 * k..6 * k + 6][..5];
  }

  lemma LastSession(cfg: Config, n0: int, d: Client, k: nat)
    requires OnScript(cfg, n0, d) && Finished(n0, d) <= k && 6 * k + 4 < |d.trace|
    ensures d.trace[6 * k..6 * k + 5] == Session(cfg)[..5]
  {
    assert |Sessions(cfg, Finished(n0, d))| == 6 * Finished(n0, d);
    assert k == Finished(n0, d) && Phase(d) == 5 && !Rejected(d.status);
    assert d.trace == Sessions(cfg, k) + Session(cfg)[..5];
  }

  // ------------------------------------------------------------ the machine

  /** The client half of struct _SimpleTCP, with the epoll entry of its socket. */
  class SimpleTCPClient {
    const cfg: Config
    var nconn: int
    var socks5Status: Status
    var open: bool
    var registered: Registration
    var sleeping: bool
    var isDone: bool
    var condition: Condition
    var trace: seq<Action>

    function View(): Client
      reads this
    {
      Client(nconn, socks5Status, open, registered, sleeping, isDone, condition, trace)
    }

    constructor (cfg: Config, nconn: int)
      ensures View() == Start(nconn) && this.cfg == cfg
    {
      this.cfg, this.nconn, socks5Status := cfg, nconn, INIT;
      open, registered, sleeping := true, ForOutput, false;
      isDone, condition, trace := false, Running, [];
    }

    /** A fresh socket, watched for output. */
    method StartClient()
      modifies this`open, this`registered
      ensures open && registered == ForOutput
    {
      open := true;
      registered := ForOutput;
    }

    method WakeUpClient()
      modifies this
      ensures View() == old(View()).(open := true, sleeping := false, registered := ForOutput)
    {
      sleeping := false;
      StartClient();
    }

    /** What a caller sees: one packet more and input awaited next, or the exit. */
    method WriteEvent()
      modifies this`socks5Status, this`registered, this`trace, this`condition
      ensures View() == ClientWrite(cfg, old(View()))
      ensures old(socks5Status) in {INIT, NEGOTIATION_OK, CONNECTION_OK, DONE} ==>
                registered == ForInput && |trace| == |old(trace)| + 1 && trace[|old(trace)|].Wrote? && old(trace) <= trace
      ensures old(socks5Status) == INIT ==>
                socks5Status == NEGOTIATION_REQ && ReadGreeting(trace[|old(trace)|].bytes) == Some([0])
      ensures old(socks5Status) == NEGOTIATION_OK && ProperConfig(cfg) ==>
                socks5Status == CONNECTION_REQ
                && ReadRequest(trace[|old(trace)|].bytes) == Some((cfg.serverIP, cfg.serverPort))
      ensures old(socks5Status) in {CONNECTION_OK, DONE} ==> socks5Status == DONE && trace[|old(trace)|] == Wrote(cfg.hostname)
      ensures old(socks5Status) in {NEGOTIATION_REQ, NEGOTIATION_FAIL, CONNECTION_REQ, CONNECTION_FAIL} ==>
                condition == Exited && trace == old(trace)
    {
      var status := socks5Status;
      match status {
        case INIT =>
          status := NEGOTIATION_REQ;
          assert GREETING[2..] == [0];
          trace := trace + [Wrote(GREETING)];
        case NEGOTIATION_OK =>
          status := CONNECTION_REQ;
          if ProperConfig(cfg) { PacketsAreUnderstood(cfg); }
          trace := trace + [Wrote(Request(cfg))];
        case CONNECTION_OK =>
          status := DONE;
          trace := trace + [Wrote(cfg.hostname)];
        case DONE =>
          trace := trace + [Wrote(cfg.hostname)];
        case _ =>
          condition := Exited;
          return;
      }
      socks5Status := status;
      registered := ForInput;
    }

    method Verdict(ok: bool, next: Status)
      modifies this`socks5Status, this`trace, this`registered
      ensures socks5Status == next && trace == old(trace) + [Replied(ok)] && registered == ForOutput
    {
      socks5Status := next;
      trace := trace + [Replied(ok)];
      registered := ForOutput;
    }

    /** The reader's DONE case. */
    method EndConnection()
      requires socks5Status == DONE
      modifies this
      ensures View() == ClientRead(cfg, old(View()), Failed)
      ensures !open && registered == Off && trace == old(trace) + [Closed]
      ensures isDone <==> old(isDone) || old(nconn) <= 1
      ensures sleeping <==> old(sleeping) || (old(nconn) > 1 && !(cfg.sleepMin == cfg.sleepMax != 0))
    {
      registered := Off;
      open := false;
      trace := trace + [Closed];
      if nconn > 1 {
        socks5Status := INIT;
        nconn := nconn - 1;
        if DividesByZero(cfg) {
          condition := ZeroDivisor;
          return;
        }
        sleeping := true;
      } else {
        isDone := true;
      }
    }

    /** What a caller sees: a verdict on a reply and output awaited next; or the end of the
        connection, and with it the end, another sleep, or the division by zero. */
    method ReadEvent(answer: ReadResult)
      modifies this
      ensures View() == ClientRead(cfg, old(View()), answer)
      ensures old(socks5Status) == NEGOTIATION_REQ ==>
                socks5Status == if NegotiationAccepted(answer) then NEGOTIATION_OK else NEGOTIATION_FAIL
      ensures old(socks5Status) == CONNECTION_REQ ==>
                socks5Status == if RequestAccepted(cfg, answer) then CONNECTION_OK else CONNECTION_FAIL
      ensures old(socks5Status) !in {NEGOTIATION_REQ, CONNECTION_REQ, DONE} ==> condition == Exited && trace == old(trace)
      ensures old(socks5Status) in {NEGOTIATION_REQ, CONNECTION_REQ} ==>
                registered == ForOutput && trace == old(trace) + [Replied(!Rejected(socks5Status))]
      ensures old(socks5Status) == DONE ==>
                && !open && registered == Off && trace == old(trace) + [Closed]
                && (isDone <==> old(isDone) || old(nconn) <= 1)
                && (sleeping <==> old(sleeping) || (old(nconn) > 1 && !(cfg.sleepMin == cfg.sleepMax != 0)))
    {
      match socks5Status {
        case NEGOTIATION_REQ =>
          var ok := NegotiationAccepted(answer);
          Verdict(ok, if ok then NEGOTIATION_OK else NEGOTIATION_FAIL);
        case CONNECTION_REQ =>
          var ok := RequestAccepted(cfg, answer);
          Verdict(ok, if ok then CONNECTION_OK else CONNECTION_FAIL);
        case DONE =>
          EndConnection();
        case _ =>
          condition := Exited;
      }
    }

    /** One event; on a client in good order it stays so, and on its script. */
    method ActivateClient(e: Event, ghost n0: int)
      modifies this
      ensures View() == Activate(cfg, old(View()), e)
      ensures old(Automaton(View()) && Enabled(View(), e)) ==> Automaton(View())
      ensures old(Automaton(View()) && Enabled(View(), e) && OnScript(cfg, n0, View())) ==> OnScript(cfg, n0, View())
    {
      ghost var before := View();
      if condition == Running {
        match e {
          case WakeUp => WakeUpClient();
          case Ready(out, inp, answer) =>
            if out {
              WriteEvent();
            } else if inp {
              ReadEvent(answer);
            }
        }
      }
      if Automaton(before) && Enabled(before, e) {
        StepKeepsAutomaton(cfg, before, e);
        if OnScript(cfg, n0, before) { StepStaysOnScript(cfg, n0, before, e); }
      }
    }
  }
}
