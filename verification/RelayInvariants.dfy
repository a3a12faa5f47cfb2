/** What every schedule keeps: pairing, the three interest states of a live pair, and
    which exits of the relay can be reached. */
module RelayInvariants {
  import opened Basics
  import opened RelayModel

  predicate HoldsChunk(r: Partner) {
    r.buf.Held? && 1 <= r.bufsize <= PAGE_SIZE && |r.buf.bytes| == r.bufsize
  }

  predicate Live(p: Proxy, x: Fd) {
    x in p.table && p.table[x].sd in p.table
  }

  predicate HalfClosed(p: Proxy, x: Fd) {
    x in p.table && p.table[x].sd !in p.table
  }

  /** y waits to write the chunk its partner x has read. */
  predicate Writing(p: Proxy, x: Fd, y: Fd)
    requires x in p.table
  {
    Registered(p.kernel, x) == NONE && Registered(p.kernel, y) == EPOLLALL && HoldsChunk(p.table[x])
  }

  predicate BothReading(p: Proxy, x: Fd, y: Fd) {
    Registered(p.kernel, x) == EPOLLIN && Registered(p.kernel, y) == EPOLLIN
  }

  predicate PairState(p: Proxy, x: Fd, y: Fd)
    requires x in p.table && y in p.table
  {
    BothReading(p, x, y) || Writing(p, x, y) || Writing(p, y, x)
  }

  predicate EndpointOk(p: Proxy, x: Fd)
    requires x in p.table
  {
    var y := p.table[x].sd;
    && x in p.kernel.open && x != p.listener
    && y != x && y != p.listener
    && (p.table[x].bufsize != 0 ==> HoldsChunk(p.table[x]))
    && (if y in p.table then p.table[y].sd == x && PairState(p, x, y) else y !in p.kernel.open)
  }

  ghost predicate Inv(p: Proxy) {
    && p.listener in p.kernel.open
    && p.listener !in p.table
    && Registered(p.kernel, p.listener) == EPOLLIN
    && p.kernel.interest.Keys <= p.table.Keys + {p.listener}
    && (forall x | x in p.table :: EndpointOk(p, x))
    && (forall x, y | x in p.table && y in p.table && p.table[x].sd == p.table[y].sd :: x == y)
  }

  lemma InitInv(listener: Fd)
    ensures Inv(Init(listener))
  {
  }

  // ------------------------------------------------- one handler at a time

  lemma AcceptInv(p: Proxy, e: Event)
    requires Inv(p) && Possible(p, e) && e.fd == p.listener
    ensures Inv(HandleNewConnection(p, e.answers))
  {
    var a := e.answers;
    var q := HandleNewConnection(p, a);
    forall x | x in q.table ensures EndpointOk(q, x) {
      if x in p.table { assert EndpointOk(p, x); }
    }
  }

  lemma ReadInv(p: Proxy, x: Fd, r: Recv)
    requires Inv(p) && x in p.table && Registered(p.kernel, x).inp
    requires r.Data? && 1 <= |r.bytes| <= PAGE_SIZE
    ensures Inv(HandleRead(p, x, p.table[x], r))
  {
    var q := HandleRead(p, x, p.table[x], r);
    assert EndpointOk(p, x);
    forall z | z in q.table ensures EndpointOk(q, z) {
      assert EndpointOk(p, z);
    }
  }

  lemma CloseInv(p: Proxy, x: Fd, r: Recv)
    requires Inv(p) && x in p.table && Registered(p.kernel, x).inp && !r.Data?
    ensures Inv(CloseConnections(HandleRead(p, x, p.table[x], r), x, Filled(p.table[x], r)))
  {
    var q := CloseConnections(HandleRead(p, x, p.table[x], r), x, Filled(p.table[x], r));
    assert EndpointOk(p, x);
    forall z | z in q.table ensures EndpointOk(q, z) {
      assert EndpointOk(p, z);
    }
  }

  lemma WriteInv(p: Proxy, x: Fd, y: Fd, sendCount: int)
    requires Inv(p) && y in p.table && p.table[y].sd == x && HoldsChunk(p.table[y])
    ensures Inv(HandleWrite(p, x, y, sendCount))
  {
    var q := HandleWrite(p, x, y, sendCount);
    assert EndpointOk(p, y);
    forall z | z in q.table ensures EndpointOk(q, z) {
      assert EndpointOk(p, z);
    }
  }

  /** If the buffer turns out to be freed already, x has left the table before. */
  lemma LateCloseInv(p: Proxy, x: Fd, partner: Partner)
    requires Inv(p) && x != p.listener
    requires forall y | y in p.table && y != x :: p.table[y].sd != x
    requires partner.bufsize != 0 && partner.buf.Freed? ==> x !in p.table
    ensures Inv(CloseConnections(p, x, partner))
  {
  }

  /** The read half of an event, and what the write half finds afterwards. */
  lemma InPhaseInv(p: Proxy, e: Event)
    requires Inv(p) && Possible(p, e) && e.fd in p.table && e.inp
    ensures Inv(InPhase(p, e))
    ensures var q := InPhase(p, e); var y := p.table[e.fd].sd;
            && (y in q.table <==> y in p.table)
            && (y in p.table ==> q.table[y] == p.table[y])
  {
    assert EndpointOk(p, e.fd);
    if e.answers.recv.Data? {
      ReadInv(p, e.fd, e.answers.recv);
    } else {
      CloseInv(p, e.fd, e.answers.recv);
    }
  }

  lemma OutPhaseInv(q: Proxy, e: Event, partner: Partner)
    requires Inv(q) && e.fd != q.listener
    requires partner.sd in q.table ==> q.table[partner.sd].sd == e.fd && HoldsChunk(q.table[partner.sd])
    requires partner.sd !in q.table ==> forall z | z in q.table && z != e.fd :: q.table[z].sd != e.fd
    requires partner.bufsize != 0 && partner.buf.Freed? ==> e.fd !in q.table
    ensures Inv(OutPhase(q, e, partner))
  {
    if partner.sd in q.table {
      WriteInv(q, e.fd, partner.sd, e.answers.sendCount);
    } else if q.isDone {
      LateCloseInv(q, e.fd, partner);
    }
  }

  /** The state in which the write half of an event starts. */
  function BeforeOut(p: Proxy, e: Event): Proxy
    requires e.fd in p.table
  {
    if e.inp then InPhase(p, e) else p
  }

  /** What the write half finds: its partner with a chunk, or nobody who names it; and a
      buffer that was freed only if the read half closed the endpoint. */
  lemma OutPhaseFinds(p: Proxy, e: Event)
    requires Inv(p) && Possible(p, e) && e.fd in p.table && e.out
    ensures var q, partner := BeforeOut(p, e), PartnerLater(p, e);
            && Inv(q) && e.fd != q.listener && partner.sd == p.table[e.fd].sd
            && (partner.sd in q.table ==> q.table[partner.sd].sd == e.fd && HoldsChunk(q.table[partner.sd]))
            && (partner.bufsize != 0 && partner.buf.Freed? ==> e.fd !in q.table)
  {
    assert EndpointOk(p, e.fd);
    if e.inp { InPhaseInv(p, e); }
  }

  lemma NobodyNames(p: Proxy, e: Event)
    requires Inv(p) && Possible(p, e) && HalfClosed(p, e.fd)
    ensures var q := BeforeOut(p, e);
            forall z | z in q.table && z != e.fd :: q.table[z].sd != e.fd
  {
    var q := BeforeOut(p, e);
    forall z | z in q.table && z != e.fd ensures q.table[z].sd != e.fd {
      assert EndpointOk(p, z);
    }
  }

  /** Main invariant, one event: any mixture of readable and writable, any recv and send result. */
  lemma ActivateInv(p: Proxy, e: Event)
    requires Inv(p) && Possible(p, e)
    ensures Inv(Activate(p, e))
  {
    if p.status != Running {
    } else if e.fd == p.listener {
      AcceptInv(p, e);
    } else {
      assert e.fd in p.table;
      if e.inp { InPhaseInv(p, e); }
      if e.out {
        OutPhaseFinds(p, e);
        if HalfClosed(p, e.fd) { NobodyNames(p, e); }
        OutPhaseInv(BeforeOut(p, e), e, PartnerLater(p, e));
      }
    }
  }

  lemma {:induction false} RunInv(p: Proxy, events: seq<Event>)
    requires Inv(p) && PossibleRun(p, events)
    ensures Inv(Run(p, events))
    decreases |events|
  {
    if events != [] {
      ActivateInv(p, events[0]);
      RunInv(Activate(p, events[0]), events[1..]);
    }
  }

  // ------------------------------------------------------------ accounting

  /** No descriptor is open that is not filed, and a buffer is held exactly while it is counted. */
  ghost predicate Accounted(p: Proxy) {
    && (forall x :: x in p.kernel.open <==> x == p.listener || x in p.table)
    && (forall x | x in p.table :: p.table[x].buf.Held? <==> p.table[x].bufsize != 0)
  }

  lemma InitAccounted(listener: Fd)
    ensures Accounted(Init(listener))
  {
  }

  lemma InPhaseAccounted(p: Proxy, e: Event)
    requires Inv(p) && Possible(p, e) && Accounted(p) && e.fd in p.table && e.inp
    ensures Accounted(InPhase(p, e))
  {
    assert EndpointOk(p, e.fd);
  }

  lemma OutPhaseAccounted(q: Proxy, e: Event, partner: Partner)
    requires Accounted(q) && e.fd != q.listener
    requires partner.bufsize != 0 && partner.buf.Freed? ==> e.fd !in q.table
    ensures Accounted(OutPhase(q, e, partner))
  {
  }

  lemma ActivateAccounted(p: Proxy, e: Event)
    requires Inv(p) && Possible(p, e) && Accounted(p)
    ensures Accounted(Activate(p, e))
  {
    if p.status != Running {
    } else if e.fd == p.listener {
    } else {
      assert e.fd in p.table;
      if e.inp { InPhaseAccounted(p, e); }
      if e.out {
        OutPhaseFinds(p, e);
        OutPhaseAccounted(BeforeOut(p, e), e, PartnerLater(p, e));
      }
    }
  }

  /** Over every run the relay leaks no descriptor: accepted, refused, closed or left over. */
  lemma {:induction false} RunAccounted(p: Proxy, events: seq<Event>)
    requires Inv(p) && PossibleRun(p, events) && Accounted(p)
    ensures Accounted(Run(p, events))
    decreases |events|
  {
    if events != [] {
      ActivateInv(p, events[0]);
      ActivateAccounted(p, events[0]);
      RunAccounted(Activate(p, events[0]), events[1..]);
    }
  }

  /** What one accept does. Either way the flag is reset. A refused connection leaves nothing
      behind; a good one is two open descriptors, filed under each other and watched for input. */
  lemma AcceptOutcome(p: Proxy, e: Event)
    requires Inv(p) && Possible(p, e) && p.status == Running && e.fd == p.listener
    ensures var q, a := Activate(p, e), e.answers;
            && q.status == Running && !q.isDone
            && (!a.connected ==>
                  q.table == p.table && q.kernel.open == p.kernel.open && q.kernel.interest == p.kernel.interest)
            && (a.connected ==>
                  && q.table == p.table[a.cin := Partner(a.cout, 0, NoBuffer)][a.cout := Partner(a.cin, 0, NoBuffer)]
                  && q.kernel.open == p.kernel.open + {a.cin, a.cout}
                  && q.kernel.interest == p.kernel.interest[a.cin := EPOLLIN][a.cout := EPOLLIN])
  {
    var a, q := e.answers, Activate(p, e);
    assert a.cin !in p.kernel.interest && a.cout !in p.kernel.interest by {
      assert forall x | x in p.table :: EndpointOk(p, x);
    }
    if !a.connected {
      assert q.kernel.open == p.kernel.open;
      assert q.kernel.interest == p.kernel.interest;
    }
  }

  // ------------------------------------------------------------------ exits

  /** The ways to stop that a run can take: the failed lookup of the peer, and a buffer that
      is freed twice. The lookup of the descriptor itself always succeeds. */
  predicate Ordinary(s: Status) {
    s in {Running, MeLookupFailed, DoubleFree}
  }

  lemma OnlyOrdinary(p: Proxy, e: Event)
    requires Inv(p) && Possible(p, e) && Ordinary(p.status)
    ensures Ordinary(Activate(p, e).status)
  {
  }

  lemma RunNeverLosesPartner(listener: Fd, events: seq<Event>)
    requires PossibleRun(Init(listener), events)
    ensures Ordinary(Run(Init(listener), events).status)
  {
    InitInv(listener);
    NeverLosesPartner(Init(listener), events);
  }

  lemma {:induction false} NeverLosesPartner(p: Proxy, events: seq<Event>)
    requires Inv(p) && PossibleRun(p, events) && Ordinary(p.status)
    ensures Ordinary(Run(p, events).status)
    decreases |events|
  {
    if events != [] {
      OnlyOrdinary(p, events[0]);
      ActivateInv(p, events[0]);
      NeverLosesPartner(Activate(p, events[0]), events[1..]);
    }
  }

  /** The guard of the exit: write readiness on a half-closed endpoint, seen while isDone has
      been reset, and not preceded by its own end of file. */
  predicate WriteAfterReset(p: Proxy, e: Event) {
    && p.status == Running && e.out && HalfClosed(p, e.fd) && !p.isDone
    && (e.inp ==> e.answers.recv.Data?)
  }

  lemma MeExitExactly(p: Proxy, e: Event)
    requires Inv(p) && Possible(p, e) && p.status == Running
    ensures Activate(p, e).status == MeLookupFailed <==> WriteAfterReset(p, e)
  {
  }

  /** The guard of the double free: a half-closed endpoint is reported readable and writable in
      one event, and the recv fails. The read half closes it and frees the buffer; the write half
      closes it again over the same record. */
  predicate FailsWhileWriting(p: Proxy, e: Event) {
    p.status == Running && HalfClosed(p, e.fd) && e.inp && e.out && e.answers.recv.Error?
  }

  lemma DoubleFreeExactly(p: Proxy, e: Event)
    requires Inv(p) && Possible(p, e) && p.status == Running
    ensures Activate(p, e).status == DoubleFree <==> FailsWhileWriting(p, e)
  {
    if e.fd in p.table {
      assert EndpointOk(p, e.fd);
      if Live(p, e.fd) && e.out { WriteFindsChunk(p, e); }
    }
  }

  predicate Fatal(p: Proxy, e: Event) {
    WriteAfterReset(p, e) || FailsWhileWriting(p, e)
  }

  predicate NeverFatal(p: Proxy, events: seq<Event>)
    decreases |events|
  {
    events == [] || (!Fatal(p, events[0]) && NeverFatal(Activate(p, events[0]), events[1..]))
  }

  /** One event stops a running relay exactly when it is fatal. */
  lemma StopsExactly(p: Proxy, e: Event)
    requires Inv(p) && Possible(p, e) && p.status == Running
    ensures Activate(p, e).status == Running <==> !Fatal(p, e)
  {
    MeExitExactly(p, e);
    DoubleFreeExactly(p, e);
    OnlyOrdinary(p, e);
  }

  /** A run survives exactly when none of its events is fatal. */
  lemma {:induction false} RunSurvivesExactly(p: Proxy, events: seq<Event>)
    requires Inv(p) && PossibleRun(p, events) && p.status == Running
    ensures Run(p, events).status == Running <==> NeverFatal(p, events)
    decreases |events|
  {
    if events != [] {
      var q := Activate(p, events[0]);
      StopsExactly(p, events[0]);
      ActivateInv(p, events[0]);
      if q.status == Running {
        RunSurvivesExactly(q, events[1..]);
      } else {
        StoppedStays(q, events[1..]);
      }
    }
  }

  lemma {:induction false} StoppedStays(p: Proxy, events: seq<Event>)
    requires p.status != Running
    ensures Run(p, events) == p
    decreases |events|
  {
    if events != [] {
      StoppedStays(p, events[1..]);
    }
  }

  // ------------------------------------------------------------ half-close

  predicate SomeHalfClosed(p: Proxy) {
    exists x | x in p.table :: HalfClosed(p, x)
  }

  predicate SafeAccept(p: Proxy, e: Event) {
    e.fd == p.listener ==> !SomeHalfClosed(p)
  }

  predicate SafeAccepts(p: Proxy, events: seq<Event>)
    decreases |events|
  {
    events == [] || (SafeAccept(p, events[0]) && SafeAccepts(Activate(p, events[0]), events[1..]))
  }

  predicate NeverFailsWhileWriting(p: Proxy, events: seq<Event>)
    decreases |events|
  {
    events == [] || (!FailsWhileWriting(p, events[0]) && NeverFailsWhileWriting(Activate(p, events[0]), events[1..]))
  }

  lemma HalfCloseSetsDone(p: Proxy, e: Event)
    requires Inv(p) && Possible(p, e) && SafeAccept(p, e)
    requires SomeHalfClosed(p) ==> p.isDone
    ensures SomeHalfClosed(Activate(p, e)) ==> Activate(p, e).isDone
  {
  }

  /** Without an accept in a half-closed state half-closed implies isDone, the exit is
      unreachable, and a run survives exactly when no recv fails while a survivor is writing. */
  lemma {:induction false} SafeHalfClose(p: Proxy, events: seq<Event>)
    requires Inv(p) && PossibleRun(p, events) && SafeAccepts(p, events) && p.status == Running
    requires SomeHalfClosed(p) ==> p.isDone
    ensures var q := Run(p, events);
            && (SomeHalfClosed(q) ==> q.isDone)
            && q.status == if NeverFailsWhileWriting(p, events) then Running else DoubleFree
    decreases |events|
  {
    if events != [] {
      var e, q := events[0], Activate(p, events[0]);
      HalfCloseSetsDone(p, e);
      StopsExactly(p, e);
      DoubleFreeExactly(p, e);
      ActivateInv(p, e);
      if q.status == Running {
        SafeHalfClose(q, events[1..]);
      } else {
        StoppedStays(q, events[1..]);
      }
    }
  }

  /** The write event of a surviving endpoint closes it, and nothing else changes hands; the
      process goes on unless the same event brought a failed recv. */
  lemma SurvivorIsClosed(p: Proxy, e: Event)
    requires Inv(p) && Possible(p, e) && p.status == Running && p.isDone
    requires HalfClosed(p, e.fd) && e.out
    ensures var q := Activate(p, e);
            && q.table == p.table - {e.fd}
            && q.kernel.open == p.kernel.open - {e.fd}
            && q.kernel.interest == p.kernel.interest - {e.fd}
            && q.status == if FailsWhileWriting(p, e) then DoubleFree else Running
  {
    assert EndpointOk(p, e.fd);
    var q := Activate(p, e);
    assert q.table == p.table - {e.fd};
    assert q.kernel.interest == p.kernel.interest - {e.fd};
  }

  // --------------------------------------------------- waiting for the write

  /** While the process runs, every survivor is registered for the event that closes it. */
  predicate SurvivorsWait(p: Proxy) {
    p.status == Running ==> forall x | x in p.table && HalfClosed(p, x) :: Registered(p.kernel, x).out
  }

  /** What takes that registration away: an endpoint that leaves in the very event that writes
      the chunk pending for it, or data on a survivor without write readiness. */
  predicate Strands(p: Proxy, e: Event) {
    p.status == Running && e.inp &&
    ((Live(p, e.fd) && e.out && !e.answers.recv.Data?) ||
     (HalfClosed(p, e.fd) && !e.out && e.answers.recv.Data?))
  }

  /** x is the same endpoint, equally registered, before and after. */
  predicate SameEndpoint(p: Proxy, q: Proxy, x: Fd) {
    && (x in q.table <==> x in p.table)
    && (x in p.table ==> q.table[x] == p.table[x])
    && Registered(q.kernel, x) == Registered(p.kernel, x)
    && (x in q.kernel.open <==> x in p.kernel.open)
    && (HalfClosed(q, x) <==> HalfClosed(p, x))
  }

  lemma AcceptUntouched(p: Proxy, e: Event, x: Fd)
    requires Inv(p) && Possible(p, e) && e.fd == p.listener && x in p.table
    ensures SameEndpoint(p, HandleNewConnection(p, e.answers), x)
  {
    assert EndpointOk(p, x);
  }

  lemma InUntouched(p: Proxy, e: Event, x: Fd)
    requires Inv(p) && Possible(p, e) && e.fd in p.table && e.inp
    requires x in p.table && x != e.fd && x != p.table[e.fd].sd
    ensures SameEndpoint(p, InPhase(p, e), x)
  {
    assert EndpointOk(p, e.fd) && EndpointOk(p, x);
  }

  lemma WriteUntouched(q: Proxy, sd: Fd, outsd: Fd, n: int, x: Fd)
    requires outsd in q.table && x != sd && x != outsd
    ensures SameEndpoint(q, HandleWrite(q, sd, outsd, n), x)
  {
  }

  lemma CloseUntouched(q: Proxy, sd: Fd, partner: Partner, x: Fd)
    requires x in q.table && x != sd && q.table[x].sd != sd
    ensures SameEndpoint(q, CloseConnections(q, sd, partner), x)
  {
  }

  lemma OutUntouched(q: Proxy, e: Event, partner: Partner, x: Fd)
    requires x in q.table && x != e.fd && x != partner.sd && q.table[x].sd != e.fd
    ensures SameEndpoint(q, OutPhase(q, e, partner), x)
  {
    if partner.sd in q.table {
      WriteUntouched(q, e.fd, partner.sd, e.answers.sendCount, x);
    } else if q.isDone {
      CloseUntouched(q, e.fd, partner, x);
    }
  }

  /** One event concerns its own endpoint and the partner of that, and no other. */
  lemma Untouched(p: Proxy, e: Event, x: Fd)
    requires Inv(p) && Possible(p, e) && x in p.table
    requires e.fd in p.table ==> x != e.fd && x != p.table[e.fd].sd
    ensures SameEndpoint(p, Activate(p, e), x)
  {
    assert e.fd in p.kernel.interest;
    if p.status != Running {
    } else if e.fd == p.listener {
      AcceptUntouched(p, e, x);
    } else {
      assert EndpointOk(p, e.fd) && EndpointOk(p, x);
      if e.inp { InUntouched(p, e, x); }
      if e.out { OutUntouched(BeforeOut(p, e), e, PartnerLater(p, e), x); }
    }
  }

  /** What an event leaves of a live pair. */
  lemma LivePairAfter(p: Proxy, e: Event)
    requires Inv(p) && Possible(p, e) && p.status == Running && Live(p, e.fd)
    ensures var q, y := Activate(p, e), p.table[e.fd].sd;
            && q.status == Running && y in q.table && q.table[y].sd == e.fd
            && (e.fd in q.table <==> !(e.inp && !e.answers.recv.Data?))
            && (e.fd in q.table ==> q.table[e.fd].sd == y)
            && (e.fd !in q.table ==> Registered(q.kernel, y) == if e.out then EPOLLIN else EPOLLALL)
  {
    assert EndpointOk(p, e.fd);
    if e.out { WriteFindsChunk(p, e); }
  }

  /** What an event leaves of a survivor: it is closed, or the process has stopped, or data
      alone has left it watched for nothing. */
  lemma SurvivorAfter(p: Proxy, e: Event)
    requires Inv(p) && Possible(p, e) && p.status == Running && HalfClosed(p, e.fd)
    ensures var q := Activate(p, e);
            q.status == Running && e.fd in q.table <==> !e.out && e.answers.recv.Data?
    ensures var q := Activate(p, e);
            q.status == Running && e.fd in q.table ==> HalfClosed(q, e.fd) && Registered(q.kernel, e.fd) == NONE
  {
    assert EndpointOk(p, e.fd);
  }

  lemma AcceptKeepsWaiting(p: Proxy, e: Event)
    requires Inv(p) && Possible(p, e) && SurvivorsWait(p) && p.status == Running && e.fd == p.listener
    ensures SurvivorsWait(Activate(p, e))
  {
    var q := Activate(p, e);
    forall x | x in q.table && HalfClosed(q, x) ensures Registered(q.kernel, x).out {
      if x in p.table { AcceptUntouched(p, e, x); }
    }
  }

  /** One event keeps all survivors waiting for their write if and only if it is neither. */
  lemma SurvivorsWaitExactly(p: Proxy, e: Event)
    requires Inv(p) && Possible(p, e) && SurvivorsWait(p)
    ensures SurvivorsWait(Activate(p, e)) <==> !Strands(p, e)
  {
    assert e.fd in p.kernel.interest;
    if p.status != Running {
    } else if e.fd == p.listener {
      AcceptKeepsWaiting(p, e);
    } else {
      var q, y := Activate(p, e), p.table[e.fd].sd;
      assert EndpointOk(p, e.fd);
      if Live(p, e.fd) { LivePairAfter(p, e); } else { SurvivorAfter(p, e); }
      TableShrinks(p, e);
      forall x | x in q.table && HalfClosed(q, x) && x != e.fd && x != y ensures Registered(q.kernel, x).out || q.status != Running {
        Untouched(p, e, x);
      }
      assert Strands(p, e) ==> HalfClosed(q, if Live(p, e.fd) then y else e.fd);
    }
  }

  lemma TableShrinks(p: Proxy, e: Event)
    requires e.fd in p.table && e.fd != p.listener
    ensures Activate(p, e).table.Keys <= p.table.Keys
  {
  }

  predicate NeverStrands(p: Proxy, events: seq<Event>)
    decreases |events|
  {
    events == [] || (!Strands(p, events[0]) && NeverStrands(Activate(p, events[0]), events[1..]))
  }

  predicate SurvivorsWaitThroughout(p: Proxy, events: seq<Event>)
    decreases |events|
  {
    SurvivorsWait(p) && (events == [] || SurvivorsWaitThroughout(Activate(p, events[0]), events[1..]))
  }

  lemma {:induction false} RunSurvivorsWaitExactly(p: Proxy, events: seq<Event>)
    requires Inv(p) && PossibleRun(p, events) && SurvivorsWait(p)
    ensures SurvivorsWaitThroughout(p, events) <==> NeverStrands(p, events)
    decreases |events|
  {
    if events != [] {
      SurvivorsWaitExactly(p, events[0]);
      ActivateInv(p, events[0]);
      if SurvivorsWait(Activate(p, events[0])) {
        RunSurvivorsWaitExactly(Activate(p, events[0]), events[1..]);
      }
    }
  }

  predicate Forgotten(p: Proxy, x: Fd) {
    HalfClosed(p, x) && x in p.kernel.open && Registered(p.kernel, x) == NONE
  }

  /** A survivor that is watched for nothing stays open and in the table for ever. */
  lemma {:induction false} ForgottenForever(p: Proxy, events: seq<Event>, x: Fd)
    requires Inv(p) && PossibleRun(p, events) && Forgotten(p, x)
    ensures Forgotten(Run(p, events), x)
    decreases |events|
  {
    if events != [] {
      ActivateInv(p, events[0]);
      ForgottenStays(p, events[0], x);
      ForgottenForever(Activate(p, events[0]), events[1..], x);
    }
  }

  lemma ForgottenStays(p: Proxy, e: Event, x: Fd)
    requires Inv(p) && Possible(p, e) && Forgotten(p, x)
    ensures Forgotten(Activate(p, e), x)
  {
    if e.fd in p.table { assert EndpointOk(p, e.fd) && EndpointOk(p, x); }
    Untouched(p, e, x);
  }

  // ------------------------------------------------------------- the writer

  /** Every send on a live pair finds an unfreed chunk of 1 to PAGE_SIZE bytes, even when
      the same event was also readable. */
  lemma WriteFindsChunk(p: Proxy, e: Event)
    requires Inv(p) && Possible(p, e) && e.out && Live(p, e.fd)
    ensures var q, y := BeforeOut(p, e), p.table[e.fd].sd;
            y in q.table && HoldsChunk(q.table[y])
  {
  }

  // ---------------------------------------------------------------- batches

  predicate Batch(p: Proxy, events: seq<Event>) {
    && (forall i | 0 <= i < |events| :: Enabled(p, events[i]))
    && (forall i, j | 0 <= i < j < |events| :: events[i].fd != events[j].fd)
  }

  predicate AnswersAlong(p: Proxy, events: seq<Event>)
    decreases |events|
  {
    events == [] ||
    (KernelAnswers(p, events[0]) && FreshAnswers(p, events[0]) && AnswersAlong(Activate(p, events[0]), events[1..]))
  }

  /** The partner of a reader gains bits; the partner of a writer had none to report. */
  lemma PartnerGainsBits(p: Proxy, e: Event)
    requires Inv(p) && Possible(p, e) && p.status == Running && Live(p, e.fd)
    ensures var y := p.table[e.fd].sd;
            if e.out then Registered(p.kernel, y) == NONE else Registered(Activate(p, e).kernel, y) == EPOLLALL
  {
    assert EndpointOk(p, e.fd);
  }

  /** Handling one event never takes back a bit already reported for another descriptor. */
  lemma OtherStaysEnabled(p: Proxy, e: Event, other: Event)
    requires Inv(p) && Possible(p, e) && Enabled(p, other) && e.fd != other.fd
    ensures Enabled(Activate(p, e), other)
  {
    assert e.fd in p.kernel.interest && other.fd in p.kernel.interest;
    if p.status != Running {
    } else if other.fd == p.listener {
      ActivateInv(p, e);
    } else if e.fd in p.table && other.fd == p.table[e.fd].sd {
      PartnerGainsBits(p, e);
    } else {
      Untouched(p, e, other.fd);
    }
  }

  /** epoll_wait reports masks once per batch; every one is still registered when its turn comes. */
  lemma {:induction false} BatchIsPossibleRun(p: Proxy, events: seq<Event>)
    requires Inv(p) && Batch(p, events) && AnswersAlong(p, events)
    ensures PossibleRun(p, events)
    decreases |events|
  {
    if events != [] {
      var e, rest := events[0], events[1..];
      assert Enabled(p, e);
      ActivateInv(p, e);
      forall i | 0 <= i < |rest| ensures Enabled(Activate(p, e), rest[i]) {
        assert rest[i] == events[i + 1];
        OtherStaysEnabled(p, e, rest[i]);
      }
      BatchIsPossibleRun(Activate(p, e), rest);
    }
  }

  // ------------------------------------------------------------- freshness

  /** The kernel's own promise is not enough: an accept keeps pairing exactly when neither
      new number is still named by a record whose partner was closed. */
  lemma PairingKeptExactly(p: Proxy, e: Event)
    requires Inv(p) && p.status == Running && e.fd == p.listener && e.inp && !e.out
    requires Enabled(p, e) && KernelAnswers(p, e) && e.answers.connected
    ensures Inv(Activate(p, e)) <==> Unnamed(p, e.answers.cin) && Unnamed(p, e.answers.cout)
  {
    var q := Activate(p, e);
    if Unnamed(p, e.answers.cin) && Unnamed(p, e.answers.cout) {
      ActivateInv(p, e);
    } else {
      var x :| x in p.table && p.table[x].sd in {e.answers.cin, e.answers.cout};
      assert EndpointOk(p, x);
      assert x in q.table && !EndpointOk(q, x);
    }
  }
}
