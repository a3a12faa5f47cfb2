/** Concrete runs on which the relay misses what one would expect of it, one for each
    assumption of the theorems. Descriptor 3 listens; 4 and 5 are the first connection. */
module RelayExamples {
  import opened Basics
  import opened RelayModel
  import opened RelayInvariants
  import opened RelayStreams

  const QUIET := Answers(0, 0, true, Eof, 0)

  function Accept(cin: Fd, cout: Fd): Event { Event(3, true, false, Answers(cin, cout, true, Eof, 0)) }
  function Read(fd: Fd, b: Byte): Event { Event(fd, true, false, QUIET.(recv := Data([b]))) }
  function Hangup(fd: Fd): Event { Event(fd, true, false, QUIET) }
  function Write(fd: Fd, n: int): Event { Event(fd, false, true, QUIET.(sendCount := n)) }

  lemma Run3(p: Proxy, a: Event, b: Event, c: Event)
    ensures Run(p, [a, b, c]) == Activate(Activate(Activate(p, a), b), c)
    ensures PossibleRun(p, [a, b, c]) <==>
              Possible(p, a) && Possible(Activate(p, a), b) && Possible(Activate(Activate(p, a), b), c)
  {
    assert [a, b, c][1..] == [b, c] && [b, c][1..] == [c] && [c][1..] == [];
    var q := Activate(Activate(p, a), b);
    assert Run(q, [c]) == Activate(q, c) && (PossibleRun(q, [c]) <==> Possible(q, c));
    assert PossibleRun(Activate(p, a), [b, c]) <==> Possible(Activate(p, a), b) && Possible(q, c);
  }

  /** After the first accept. */
  lemma Connected() returns (p: Proxy)
    ensures p == Activate(Init(3), Accept(4, 5)) && Possible(Init(3), Accept(4, 5))
    ensures p == Proxy(3, map[4 := Partner(5, 0, NoBuffer), 5 := Partner(4, 0, NoBuffer)], false,
                       Kernel({3, 4, 5}, map[3 := EPOLLIN, 4 := EPOLLIN, 5 := EPOLLIN], map[4 := [], 5 := []], map[4 := [], 5 := []]),
                       Running)
  {
    p := Activate(Init(3), Accept(4, 5));
    assert p.table == map[4 := Partner(5, 0, NoBuffer), 5 := Partner(4, 0, NoBuffer)];
    assert p.kernel.interest == map[3 := EPOLLIN, 4 := EPOLLIN, 5 := EPOLLIN];
  }

  /** After 4 has also delivered one byte. */
  lemma OneByteRead() returns (p: Proxy)
    ensures p == Activate(Activate(Init(3), Accept(4, 5)), Read(4, 1))
    ensures Possible(Init(3), Accept(4, 5)) && Possible(Activate(Init(3), Accept(4, 5)), Read(4, 1))
    ensures p == Proxy(3, map[4 := Partner(5, 1, Held([1])), 5 := Partner(4, 0, NoBuffer)], false,
                       Kernel({3, 4, 5}, map[3 := EPOLLIN, 5 := EPOLLALL], map[4 := [1], 5 := []], map[4 := [], 5 := []]),
                       Running)
  {
    var q := Connected();
    p := Activate(q, Read(4, 1));
    assert p.table == map[4 := Partner(5, 1, Held([1])), 5 := Partner(4, 0, NoBuffer)];
    assert p.kernel.interest == map[3 := EPOLLIN, 5 := EPOLLALL];
    assert Received(q, 4) + [1] == [1];
    assert p.kernel.received == map[4 := [1], 5 := []];
  }

  /** Data on a socket that waits to write is answered on the spot, but the chunk just read
      is stranded: neither end is registered to write it. */
  lemma FullDuplexStrands()
    ensures var events := [Accept(4, 5), Read(4, 1), Read(5, 2).(out := true)];
            PossibleRun(Init(3), events) &&
            var q := Run(Init(3), events);
            BothReading(q, 4, 5) && Live(q, 5) && Pending(q.table[5]) == [2] && Sent(q, 4) == [] && !Exact(q)
  {
    var c := Read(5, 2).(out := true);
    Run3(Init(3), Accept(4, 5), Read(4, 1), c);
    var p := OneByteRead();
    var q := Activate(p, c);
    assert q.table[5] == Partner(4, 1, Held([2]));
    assert !ExactAt(q, 5);
  }

  /** A send that accepts nothing loses the chunk. */
  lemma ShortSendLoses()
    ensures var events := [Accept(4, 5), Read(4, 1), Write(5, 0)];
            PossibleRun(Init(3), events) &&
            var q := Run(Init(3), events);
            BothReading(q, 4, 5) && Live(q, 4) && Received(q, 4) == [1] && Sent(q, 5) == [] && Pending(q.table[4]) == []
  {
    Run3(Init(3), Accept(4, 5), Read(4, 1), Write(5, 0));
    var p := OneByteRead();
    var q := Activate(p, Write(5, 0));
    assert q.table[4] == Partner(5, 0, Freed);
  }

  /** An accept between one end's hangup and the other end's write event stops the process. */
  lemma AcceptWhileHalfClosedExits()
    ensures var before := [Accept(4, 5), Hangup(4), Accept(6, 7)];
            PossibleRun(Init(3), before) &&
            var q := Run(Init(3), before);
            Possible(q, Write(5, 0)) && Activate(q, Write(5, 0)).status == MeLookupFailed
  {
    Run3(Init(3), Accept(4, 5), Hangup(4), Accept(6, 7));
    var p := AfterHangup();
    var q := Activate(p, Accept(6, 7));
    assert q.table[5].sd == 4 && 4 !in q.table;
  }

  /** The survivor's socket is reset: one event, readable and writable, whose recv fails. The
      same buffer is freed twice. */
  lemma FailedReadFreesTwice()
    ensures var p := Run(Init(3), [Accept(4, 5), Hangup(4)]);
            var reset := Event(5, true, true, QUIET.(recv := Error));
            Possible(p, reset) && Activate(p, reset).status == DoubleFree
  {
    var p := AfterHangup();
    var reset := Event(5, true, true, QUIET.(recv := Error));
    assert HalfClosed(p, 5) && PartnerLater(p, reset) == Partner(4, -1, Freed);
  }

  /** Data on the survivor before its write event: it is never watched again. */
  lemma DataForgetsSurvivor()
    ensures var p := Run(Init(3), [Accept(4, 5), Hangup(4)]);
            Possible(p, Read(5, 1)) && Forgotten(Activate(p, Read(5, 1)), 5)
  {
    var p := AfterHangup();
    assert HalfClosed(p, 5);
  }

  /** End of file on the socket that is being written: its survivor is watched for input only. */
  lemma HangupWhileWritingDemotesSurvivor()
    ensures var events := [Accept(4, 5), Read(4, 1), Hangup(5).(out := true)];
            PossibleRun(Init(3), events) &&
            var q := Run(Init(3), events);
            HalfClosed(q, 4) && Registered(q.kernel, 4) == EPOLLIN && q.status == Running
  {
    Run3(Init(3), Accept(4, 5), Read(4, 1), Hangup(5).(out := true));
    var p := OneByteRead();
    assert BeforeOut(p, Hangup(5).(out := true)).table[4] == Partner(5, 1, Held([1]));
  }

  /** If the number 4 is handed out again while 5 still names it, what the new connection
      reads is written to the old one. */
  lemma ReusedNumberCrosses() returns (p: Proxy, q: Proxy)
    ensures p == Run(Init(3), [Accept(4, 5), Hangup(4)])
    ensures KernelAnswers(p, Accept(6, 4)) && !FreshAnswers(p, Accept(6, 4))
    ensures q == Run(p, [Accept(6, 4), Read(4, 9), Write(5, 1)]) && q.status == Running
    ensures 4 in q.table && q.table[4].sd == 6
    ensures Received(q, 4) == [9] && Sent(q, 5) == [9] && Sent(q, 6) == []
  {
    p := AfterHangup();
    Run3(p, Accept(6, 4), Read(4, 9), Write(5, 1));
    var p1 := Reaccepted(p);
    var p2 := Reread(p1);
    q := Crossed(p2);
  }

  lemma Crossed(p: Proxy) returns (q: Proxy)
    requires p == Proxy(3, map[4 := Partner(6, 1, Held([9])), 5 := WIDOW, 6 := Partner(4, 0, NoBuffer)], false,
                        Kernel({3, 4, 5, 6}, map[3 := EPOLLIN, 5 := EPOLLALL, 6 := EPOLLALL],
                               map[4 := [9], 5 := [], 6 := []], map[4 := [], 5 := [], 6 := []]),
                        Running)
    ensures q == Activate(p, Write(5, 1)) && q.status == Running
    ensures 4 in q.table && q.table[4].sd == 6
    ensures Received(q, 4) == [9] && Sent(q, 5) == [9] && Sent(q, 6) == []
  {
    q := Activate(p, Write(5, 1));
    assert Sent(p, 5) + [9] == [9];
  }

  const WIDOW := Partner(4, 0, NoBuffer)

  lemma Reaccepted(p: Proxy) returns (q: Proxy)
    requires p == Proxy(3, map[5 := WIDOW], true,
                        Kernel({3, 5}, map[3 := EPOLLIN, 5 := EPOLLALL], map[4 := [], 5 := []], map[4 := [], 5 := []]),
                        Running)
    ensures q == Activate(p, Accept(6, 4))
    ensures q == Proxy(3, map[4 := Partner(6, 0, NoBuffer), 5 := WIDOW, 6 := Partner(4, 0, NoBuffer)], false,
                       Kernel({3, 4, 5, 6}, map[3 := EPOLLIN, 4 := EPOLLIN, 5 := EPOLLALL, 6 := EPOLLIN],
                              map[4 := [], 5 := [], 6 := []], map[4 := [], 5 := [], 6 := []]),
                       Running)
  {
    q := Activate(p, Accept(6, 4));
    assert q.table == map[4 := Partner(6, 0, NoBuffer), 5 := WIDOW, 6 := Partner(4, 0, NoBuffer)];
    assert q.kernel.interest == map[3 := EPOLLIN, 4 := EPOLLIN, 5 := EPOLLALL, 6 := EPOLLIN];
    assert q.kernel.received == map[4 := [], 5 := [], 6 := []] == q.kernel.sent;
  }

  lemma Reread(p: Proxy) returns (q: Proxy)
    requires p == Proxy(3, map[4 := Partner(6, 0, NoBuffer), 5 := WIDOW, 6 := Partner(4, 0, NoBuffer)], false,
                        Kernel({3, 4, 5, 6}, map[3 := EPOLLIN, 4 := EPOLLIN, 5 := EPOLLALL, 6 := EPOLLIN],
                               map[4 := [], 5 := [], 6 := []], map[4 := [], 5 := [], 6 := []]),
                        Running)
    ensures q == Activate(p, Read(4, 9))
    ensures q == Proxy(3, map[4 := Partner(6, 1, Held([9])), 5 := WIDOW, 6 := Partner(4, 0, NoBuffer)], false,
                       Kernel({3, 4, 5, 6}, map[3 := EPOLLIN, 5 := EPOLLALL, 6 := EPOLLALL],
                              map[4 := [9], 5 := [], 6 := []], map[4 := [], 5 := [], 6 := []]),
                       Running)
  {
    q := Activate(p, Read(4, 9));
    assert q.table == map[4 := Partner(6, 1, Held([9])), 5 := WIDOW, 6 := Partner(4, 0, NoBuffer)];
    assert q.kernel.interest == map[3 := EPOLLIN, 5 := EPOLLALL, 6 := EPOLLALL];
    assert Received(p, 4) + [9] == [9];
    assert q.kernel.received == map[4 := [9], 5 := [], 6 := []];
  }

  lemma AfterHangup() returns (p: Proxy)
    ensures p == Run(Init(3), [Accept(4, 5), Hangup(4)]) == Activate(Activate(Init(3), Accept(4, 5)), Hangup(4))
    ensures Possible(Init(3), Accept(4, 5)) && Possible(Activate(Init(3), Accept(4, 5)), Hangup(4))
    ensures p == Proxy(3, map[5 := Partner(4, 0, NoBuffer)], true,
                       Kernel({3, 5}, map[3 := EPOLLIN, 5 := EPOLLALL], map[4 := [], 5 := []], map[4 := [], 5 := []]),
                       Running)
    ensures !Unnamed(p, 4)
  {
    var es := [Accept(4, 5), Hangup(4)];
    var q := Connected();
    assert es[1..] == [Hangup(4)] && es[1..][1..] == [];
    p := Activate(q, Hangup(4));
    assert Run(q, [Hangup(4)]) == Run(p, []);
    assert p.table == map[5 := Partner(4, 0, NoBuffer)];
    assert p.kernel.interest == map[3 := EPOLLIN, 5 := EPOLLALL];
    assert p.kernel.received == map[4 := [], 5 := []];
    assert p.table[5].sd == 4;
  }
}
