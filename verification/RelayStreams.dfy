/** What the relay does to the bytes: isolation on every schedule, and exact delivery
    on exactly the schedules that neither read over a pending chunk nor cut a send short. */
module RelayStreams {
  import opened Basics
  import opened RelayModel
  import opened RelayInvariants
  import Subsequence

  // -------------------------------------------------------------- isolation

  /** Everything y was sent came, in order, from its own partner. */
  predicate FromPartner(p: Proxy, y: Fd)
    requires y in p.table
  {
    Subsequence.Subseq(Sent(p, y), Received(p, p.table[y].sd))
  }

  /** A chunk still waiting in x's record continues what its live partner was already sent. */
  predicate ChunkContinues(p: Proxy, x: Fd)
    requires x in p.table
  {
    var r := p.table[x];
    Live(p, x) && r.bufsize > 0 ==>
      r.buf.Held? && Subsequence.Subseq(Sent(p, r.sd) + r.buf.bytes, Received(p, x))
  }

  ghost predicate Isolated(p: Proxy) {
    forall x | x in p.table :: FromPartner(p, x) && ChunkContinues(p, x)
  }

  lemma InitIsolated(listener: Fd)
    ensures Isolated(Init(listener))
  {
  }

  predicate SameStreams(p: Proxy, q: Proxy, x: Fd) {
    Received(q, x) == Received(p, x) && Sent(q, x) == Sent(p, x)
  }

  lemma AcceptStreams(p: Proxy, e: Event, x: Fd)
    requires x != e.answers.cin && x != e.answers.cout
    ensures SameStreams(p, HandleNewConnection(p, e.answers), x)
  {
  }

  lemma AcceptIsolated(p: Proxy, e: Event)
    requires Inv(p) && Isolated(p) && Possible(p, e) && e.fd == p.listener
    ensures Isolated(HandleNewConnection(p, e.answers))
  {
    var q := HandleNewConnection(p, e.answers);
    forall x | x in q.table ensures FromPartner(q, x) && ChunkContinues(q, x) {
      if x in p.table {
        assert EndpointOk(p, x) && FromPartner(p, x) && ChunkContinues(p, x);
        AcceptUntouched(p, e, x);
        AcceptStreams(p, e, x);
        AcceptStreams(p, e, p.table[x].sd);
      }
    }
  }

  lemma ReadIsolated(p: Proxy, x: Fd, r: Recv)
    requires Inv(p) && Isolated(p) && x in p.table
    ensures Isolated(HandleRead(p, x, p.table[x], r))
  {
    var q := HandleRead(p, x, p.table[x], r);
    var d := RecvBytes(r);
    assert EndpointOk(p, x);
    forall z | z in q.table ensures FromPartner(q, z) && ChunkContinues(q, z) {
      assert EndpointOk(p, z) && FromPartner(p, z) && ChunkContinues(p, z);
      if p.table[z].sd == x {
        Subsequence.Extend(Sent(p, z), Received(p, x), d);
      }
      if z == x && Live(p, x) {
        var y := p.table[x].sd;
        assert EndpointOk(p, y) && FromPartner(p, y);
        Subsequence.AppendBoth(Sent(p, y), Received(p, x), d);
      }
    }
  }

  lemma CloseIsolated(p: Proxy, x: Fd, partner: Partner)
    requires Isolated(p)
    ensures Isolated(CloseConnections(p, x, partner))
  {
  }

  lemma WriteIsolated(p: Proxy, x: Fd, y: Fd, n: int)
    requires Inv(p) && Isolated(p) && y in p.table && p.table[y].sd == x
    requires HoldsChunk(p.table[y])
    requires x !in p.table ==> x !in p.kernel.open
    ensures Isolated(HandleWrite(p, x, y, n))
  {
    var q := HandleWrite(p, x, y, n);
    assert EndpointOk(p, y) && ChunkContinues(p, y);
    forall z | z in q.table ensures FromPartner(q, z) && ChunkContinues(q, z) {
      assert EndpointOk(p, z) && FromPartner(p, z) && ChunkContinues(p, z);
      if z == x {
        var chunk := p.table[y].buf.bytes;
        var done := Take(chunk, n);
        assert Sent(p, x) + chunk == (Sent(p, x) + done) + chunk[|done|..];
        Subsequence.DropSuffix(Sent(p, x) + done, chunk[|done|..], Received(p, y));
      }
    }
  }

  lemma InPhaseIsolated(p: Proxy, e: Event)
    requires Inv(p) && Isolated(p) && Possible(p, e) && e.fd in p.table && e.inp
    ensures Isolated(InPhase(p, e))
  {
    var partner, recv := p.table[e.fd], e.answers.recv;
    ReadIsolated(p, e.fd, recv);
    if !recv.Data? {
      CloseIsolated(HandleRead(p, e.fd, partner, recv), e.fd, Filled(partner, recv));
    }
  }

  lemma ActivateIsolated(p: Proxy, e: Event)
    requires Inv(p) && Isolated(p) && Possible(p, e)
    ensures Isolated(Activate(p, e))
  {
    if p.status != Running {
    } else if e.fd == p.listener {
      AcceptIsolated(p, e);
    } else {
      assert e.fd in p.table;
      assert EndpointOk(p, e.fd);
      if e.inp { InPhaseIsolated(p, e); }
      if e.out {
        var q, partner := BeforeOut(p, e), PartnerLater(p, e);
        OutPhaseFinds(p, e);
        if partner.sd in q.table {
          WriteIsolated(q, e.fd, partner.sd, e.answers.sendCount);
        } else if q.isDone {
          CloseIsolated(q, e.fd, partner);
        }
      }
    }
  }

  /** Main result, any schedule: overwritten and cut chunks included, what a socket was sent
      is always a subsequence of what its own partner delivered. */
  lemma {:induction false} RunIsolated(p: Proxy, events: seq<Event>)
    requires Inv(p) && Isolated(p) && PossibleRun(p, events)
    ensures Inv(Run(p, events)) && Isolated(Run(p, events))
    decreases |events|
  {
    if events != [] {
      ActivateInv(p, events[0]);
      ActivateIsolated(p, events[0]);
      RunIsolated(Activate(p, events[0]), events[1..]);
    }
  }

  /** In terms of positions: each byte sent to y is one its partner delivered, each used at
      most once and in order. */
  lemma SentBytesTraceBack(p: Proxy, y: Fd) returns (at: seq<int>)
    requires Isolated(p) && y in p.table
    ensures Subsequence.Embeds(Sent(p, y), Received(p, p.table[y].sd), at)
  {
    assert FromPartner(p, y);
    at := Subsequence.SubseqEmbeds(Sent(p, y), Received(p, p.table[y].sd));
  }

  // ---------------------------------------------------- what one event moves

  /** The answer of a send that took n of the bytes offered. */
  predicate SentFirst(sent: seq<Byte>, chunk: seq<Byte>, n: int) {
    && sent <= chunk
    && |sent| == if n < 0 then 0 else if n < |chunk| then n else |chunk|
  }

  lemma InStreams(p: Proxy, e: Event, x: Fd)
    requires e.fd in p.table && e.fd != p.listener && x != e.fd
    ensures SameStreams(p, InPhase(p, e), x)
  {
  }

  lemma OutStreams(q: Proxy, e: Event, partner: Partner, x: Fd)
    requires x != e.fd
    ensures SameStreams(q, OutPhase(q, e, partner), x)
  {
  }

  lemma StreamsUntouched(p: Proxy, e: Event, x: Fd)
    requires e.fd in p.table && e.fd != p.listener && x != e.fd
    ensures SameStreams(p, Activate(p, e), x)
  {
    if e.inp { InStreams(p, e, x); }
    if e.out { OutStreams(BeforeOut(p, e), e, PartnerLater(p, e), x); }
  }

  lemma EventReceives(p: Proxy, e: Event)
    requires Inv(p) && Possible(p, e) && p.status == Running && e.fd in p.table
    ensures var q, x, r := Activate(p, e), e.fd, e.answers.recv;
            && Received(q, x) == Received(p, x) + (if e.inp && r.Data? then r.bytes else [])
            && (e.inp && r.Data? && x in q.table ==> q.table[x] == Partner(p.table[x].sd, |r.bytes|, Held(r.bytes)))
  {
    assert EndpointOk(p, e.fd);
  }

  lemma EventSends(p: Proxy, e: Event) returns (sent: seq<Byte>)
    requires Inv(p) && Possible(p, e) && p.status == Running && Live(p, e.fd) && e.out
    ensures var q, x, y := Activate(p, e), e.fd, p.table[e.fd].sd;
            && Sent(q, x) == Sent(p, x) + sent
            && p.table[y].buf.Held? && y in q.table && q.table[y] == Partner(x, 0, Freed)
            && if e.inp && !e.answers.recv.Data? then sent == [] else SentFirst(sent, p.table[y].buf.bytes, e.answers.sendCount)
  {
    var x, y := e.fd, p.table[e.fd].sd;
    assert EndpointOk(p, x) && EndpointOk(p, y) && HoldsChunk(p.table[y]);
    sent := if e.inp && !e.answers.recv.Data? then [] else Take(p.table[y].buf.bytes, e.answers.sendCount);
  }

  lemma EventSendsNothing(p: Proxy, e: Event)
    requires Inv(p) && Possible(p, e) && p.status == Running && e.fd in p.table && !(Live(p, e.fd) && e.out)
    ensures Sent(Activate(p, e), e.fd) == Sent(p, e.fd)
  {
    assert EndpointOk(p, e.fd);
  }

  /** An event on an endpoint appends to its received stream just what recv delivered, and files
      that as the new chunk; it appends to its sent stream just the part that send took of the
      chunk pending for it, which is then freed. A closed socket is sent nothing. */
  lemma EventMoves(p: Proxy, e: Event) returns (sent: seq<Byte>)
    requires Inv(p) && Possible(p, e) && p.status == Running && e.fd in p.table
    ensures var q, x, y, r := Activate(p, e), e.fd, p.table[e.fd].sd, e.answers.recv;
            && Received(q, x) == Received(p, x) + (if e.inp && r.Data? then r.bytes else [])
            && Sent(q, x) == Sent(p, x) + sent
            && (forall z | z != x :: SameStreams(p, q, z))
            && (Live(p, x) && e.out ==>
                  && p.table[y].buf.Held? && y in q.table && q.table[y] == Partner(x, 0, Freed)
                  && if e.inp && !r.Data? then sent == [] else SentFirst(sent, p.table[y].buf.bytes, e.answers.sendCount))
            && (!(Live(p, x) && e.out) ==> sent == [])
            && (e.inp && r.Data? && x in q.table ==> q.table[x] == Partner(y, |r.bytes|, Held(r.bytes)))
  {
    assert EndpointOk(p, e.fd);
    forall z | z != e.fd ensures SameStreams(p, Activate(p, e), z) {
      StreamsUntouched(p, e, z);
    }
    EventReceives(p, e);
    if Live(p, e.fd) && e.out {
      sent := EventSends(p, e);
    } else {
      EventSendsNothing(p, e);
      sent := [];
    }
  }

  function HeardNext(listener: Fd, e: Event, x: Fd, before: seq<Byte>): seq<Byte> {
    if e.fd == listener then
      if x == e.answers.cin || x == e.answers.cout then [] else before
    else if e.fd == x && e.inp && e.answers.recv.Data? then before + e.answers.recv.bytes
    else before
  }

  /** What recv delivered on x since its number was handed out, told from the events alone. */
  function Heard(listener: Fd, events: seq<Event>, x: Fd, before: seq<Byte>): seq<Byte>
    decreases |events|
  {
    if events == [] then before else Heard(listener, events[1..], x, HeardNext(listener, events[0], x, before))
  }

  lemma EventHeard(p: Proxy, e: Event, x: Fd)
    requires Inv(p) && Possible(p, e) && p.status == Running
    ensures Received(Activate(p, e), x) == HeardNext(p.listener, e, x, Received(p, x))
    ensures Activate(p, e).listener == p.listener
  {
    assert e.fd in p.kernel.interest;
    if e.fd != p.listener {
      var _ := EventMoves(p, e);
      assert x != e.fd ==> SameStreams(p, Activate(p, e), x);
    }
  }

  /** The received streams of a run are exactly that. */
  lemma {:induction false} RunHears(p: Proxy, events: seq<Event>, x: Fd)
    requires Inv(p) && PossibleRun(p, events) && Run(p, events).status == Running
    ensures Received(Run(p, events), x) == Heard(p.listener, events, x, Received(p, x))
    decreases |events|
  {
    if events != [] {
      if p.status != Running { StoppedStays(p, events); }
      ActivateInv(p, events[0]);
      EventHeard(p, events[0], x);
      RunHears(Activate(p, events[0]), events[1..], x);
    }
  }

  // --------------------------------------------------------- exact delivery

  function Pending(r: Partner): seq<Byte> {
    if r.bufsize > 0 then BufferBytes(r.buf) else []
  }

  /** Nothing is missing, and a pending chunk has its writer registered. */
  predicate ExactAt(p: Proxy, x: Fd)
    requires Live(p, x)
  {
    var y := p.table[x].sd;
    && Received(p, x) == Sent(p, y) + Pending(p.table[x])
    && (Pending(p.table[x]) != [] ==> Registered(p.kernel, y).out)
  }

  ghost predicate Exact(p: Proxy) {
    forall x | x in p.table && Live(p, x) :: ExactAt(p, x)
  }

  lemma InitExact(listener: Fd)
    ensures Exact(Init(listener))
  {
  }

  /** The two things the environment must not do on a live pair: report data on a socket
      that still has a chunk to be written, or accept only part of a chunk. */
  predicate Harmless(p: Proxy, e: Event) {
    p.status == Running && Live(p, e.fd) ==>
      && (e.inp && e.answers.recv.Data? ==> !Registered(p.kernel, e.fd).out)
      && (e.out && !e.inp ==> e.answers.sendCount >= |Pending(p.table[p.table[e.fd].sd])|)
  }

  lemma AcceptExact(p: Proxy, e: Event)
    requires Inv(p) && Exact(p) && Possible(p, e) && e.fd == p.listener && p.status == Running
    ensures Exact(Activate(p, e))
  {
    var q := Activate(p, e);
    forall x | x in q.table && Live(q, x) ensures ExactAt(q, x) {
      if x in p.table { assert EndpointOk(p, x) && Live(p, x) && ExactAt(p, x); }
    }
  }

  /** One event leaves every other pair as exact as it was. */
  lemma OthersStayExact(p: Proxy, e: Event, x: Fd)
    requires Inv(p) && Exact(p) && Possible(p, e) && e.fd in p.table
    requires x in p.table && x != e.fd && x != p.table[e.fd].sd && Live(Activate(p, e), x)
    ensures ExactAt(Activate(p, e), x)
  {
    var y := p.table[x].sd;
    Untouched(p, e, x);
    assert EndpointOk(p, e.fd) && EndpointOk(p, x) && ExactAt(p, x);
    Untouched(p, e, y);
    StreamsUntouched(p, e, x);
    StreamsUntouched(p, e, y);
  }

  /** An endpoint whose partner is gone disturbs no live pair. */
  lemma WidowExact(p: Proxy, e: Event)
    requires Inv(p) && Exact(p) && Possible(p, e) && p.status == Running && HalfClosed(p, e.fd)
    ensures Exact(Activate(p, e))
  {
    var q := Activate(p, e);
    TableShrinks(p, e);
    SurvivorAfter(p, e);
    forall x | x in q.table && Live(q, x) ensures ExactAt(q, x) {
      if x != e.fd { OthersStayExact(p, e, x); }
    }
  }

  /** Neither does an endpoint that leaves, nor the partner it leaves behind. */
  lemma LeavingExact(p: Proxy, e: Event)
    requires Inv(p) && Exact(p) && Possible(p, e) && p.status == Running && Live(p, e.fd)
    requires e.inp && !e.answers.recv.Data?
    ensures Exact(Activate(p, e))
  {
    var q := Activate(p, e);
    TableShrinks(p, e);
    LivePairAfter(p, e);
    forall x | x in q.table && Live(q, x) ensures ExactAt(q, x) {
      OthersStayExact(p, e, x);
    }
  }

  lemma ReadExact(p: Proxy, e: Event)
    requires Inv(p) && Exact(p) && Possible(p, e) && p.status == Running && Live(p, e.fd)
    requires e.inp && e.answers.recv.Data?
    ensures Exact(Activate(p, e)) <==> Harmless(p, e)
  {
    var q, x, y := Activate(p, e), e.fd, p.table[e.fd].sd;
    assert EndpointOk(p, x) && EndpointOk(p, y) && ExactAt(p, x) && ExactAt(p, y);
    if Harmless(p, e) {
      forall z | z in q.table && Live(q, z) ensures ExactAt(q, z) {
        assert EndpointOk(p, z) && Live(p, z) && ExactAt(p, z);
      }
    } else {
      assert Live(q, x) && Live(q, y);
      assert !ExactAt(q, if e.out then x else y);
    }
  }

  lemma WriteExact(p: Proxy, e: Event)
    requires Inv(p) && Exact(p) && Possible(p, e) && p.status == Running && Live(p, e.fd)
    requires e.out && !e.inp
    ensures Exact(Activate(p, e)) <==> Harmless(p, e)
  {
    var q, x, y := Activate(p, e), e.fd, p.table[e.fd].sd;
    assert EndpointOk(p, x) && EndpointOk(p, y) && ExactAt(p, x) && ExactAt(p, y);
    assert Live(q, x) && Live(q, y);
    if Harmless(p, e) {
      forall z | z in q.table && Live(q, z) ensures ExactAt(q, z) {
        assert EndpointOk(p, z) && Live(p, z) && ExactAt(p, z);
      }
    } else {
      assert |Sent(q, x)| < |Received(q, y)|;
      assert !ExactAt(q, y);
    }
  }

  /** One event keeps delivery exact if and only if it is harmless. */
  lemma ExactlyHarmless(p: Proxy, e: Event)
    requires Inv(p) && Exact(p) && Possible(p, e)
    ensures Exact(Activate(p, e)) <==> Harmless(p, e)
  {
    assert e.fd in p.kernel.interest;
    if p.status != Running {
    } else if e.fd == p.listener {
      AcceptExact(p, e);
    } else if HalfClosed(p, e.fd) {
      WidowExact(p, e);
    } else if e.inp && !e.answers.recv.Data? {
      LeavingExact(p, e);
    } else if e.inp {
      ReadExact(p, e);
    } else {
      WriteExact(p, e);
    }
  }

  predicate HarmlessRun(p: Proxy, events: seq<Event>)
    decreases |events|
  {
    events == [] || (Harmless(p, events[0]) && HarmlessRun(Activate(p, events[0]), events[1..]))
  }

  ghost predicate ExactThroughout(p: Proxy, events: seq<Event>)
    decreases |events|
  {
    Exact(p) && (events == [] || ExactThroughout(Activate(p, events[0]), events[1..]))
  }

  /** Main result: a run over any number of interleaved connections is exact at every event
      boundary if and only if all its events are harmless. */
  lemma {:induction false} RunExactly(p: Proxy, events: seq<Event>)
    requires Inv(p) && Exact(p) && PossibleRun(p, events)
    ensures ExactThroughout(p, events) <==> HarmlessRun(p, events)
    decreases |events|
  {
    if events != [] {
      var q := Activate(p, events[0]);
      ActivateInv(p, events[0]);
      ExactlyHarmless(p, events[0]);
      if Exact(q) {
        RunExactly(q, events[1..]);
      }
    }
  }

  /** When the end of file of x is handled, its live partner already has everything. */
  lemma EofDelivered(p: Proxy, e: Event)
    requires Inv(p) && Exact(p) && Possible(p, e) && p.status == Running
    requires Live(p, e.fd) && e.inp && !e.answers.recv.Data?
    ensures var q, y := Activate(p, e), p.table[e.fd].sd;
            && Received(q, e.fd) == Sent(q, y) == Received(p, e.fd)
            && e.fd !in q.table && HalfClosed(q, y) && q.isDone
  {
  }

  /** A pair with no writer registered has delivered everything, both ways. */
  lemma QuietPairDelivered(p: Proxy, x: Fd)
    requires Inv(p) && Exact(p) && Live(p, x) && BothReading(p, x, p.table[x].sd)
    ensures var y := p.table[x].sd; Received(p, x) == Sent(p, y) && Received(p, y) == Sent(p, x)
  {
  }

  /** The relay from start-up, in one statement. */
  lemma RelayTheorem(listener: Fd, events: seq<Event>)
    requires PossibleRun(Init(listener), events)
    ensures var q := Run(Init(listener), events);
            && Inv(q) && Isolated(q) && Accounted(q) && Ordinary(q.status)
            && (q.status == Running ==> forall x :: Received(q, x) == Heard(listener, events, x, []))
            && (q.status == Running <==> NeverFatal(Init(listener), events))
            && (ExactThroughout(Init(listener), events) <==> HarmlessRun(Init(listener), events))
            && (SurvivorsWaitThroughout(Init(listener), events) <==> NeverStrands(Init(listener), events))
  {
    InitInv(listener);
    InitIsolated(listener);
    InitExact(listener);
    InitAccounted(listener);
    RunAccounted(Init(listener), events);
    forall x | Run(Init(listener), events).status == Running
      ensures Received(Run(Init(listener), events), x) == Heard(listener, events, x, [])
    {
      RunHears(Init(listener), events, x);
    }
    RunIsolated(Init(listener), events);
    RunNeverLosesPartner(listener, events);
    RunSurvivesExactly(Init(listener), events);
    RunExactly(Init(listener), events);
    RunSurvivorsWaitExactly(Init(listener), events);
  }
}
