/** The relay as it runs: partner records shared by pointer, a hash table, epoll calls and
    a flag, all updated step by step, and proved to do what RelayModel says. */
module RelayMachine {
  import opened Basics
  import opened RelayModel
  import opened RelayInvariants
  import opened RelayStreams

  /** The kernel, seen through its system calls. */
  class Sockets {
    var open: set<Fd>
    var interest: map<Fd, Interest>
    var received: map<Fd, seq<Byte>>
    var sent: map<Fd, seq<Byte>>

    function View(): Kernel
      reads this
    {
      Kernel(open, interest, received, sent)
    }

    constructor (listener: Fd)
      ensures View() == Init(listener).kernel
    {
      open, interest, received, sent := {listener}, map[listener := EPOLLIN], map[], map[];
    }

    /** EPOLL_CTL_ADD fails on a closed descriptor and on one already in the set. */
    method EpollAdd(fd: Fd, events: Interest) returns (failed: bool)
      modifies this`interest
      ensures failed <==> fd !in open || fd in old(interest)
      ensures interest == if failed then old(interest) else old(interest)[fd := events]
    {
      failed := fd !in open || fd in interest;
      if !failed { interest := interest[fd := events]; }
    }

    /** EPOLL_CTL_MOD fails on a closed descriptor and on one not in the set. */
    method EpollMod(fd: Fd, events: Interest) returns (failed: bool)
      modifies this`interest
      ensures failed <==> fd !in open || fd !in old(interest)
      ensures interest == if failed then old(interest) else old(interest)[fd := events]
    {
      failed := fd !in open || fd !in interest;
      if !failed { interest := interest[fd := events]; }
    }

    method EpollDel(fd: Fd)
      modifies this`interest
      ensures View() == ResetEpoll(old(View()), fd)
    {
      interest := interest - {fd};
    }

    method CloseFd(fd: Fd) returns (failed: bool)
      modifies this`open, this`interest
      ensures View() == Close(old(View()), fd)
      ensures failed <==> fd !in old(open)
    {
      failed := fd !in open;
      open, interest := open - {fd}, interest - {fd};
    }

    /** accept and socket; the number is the environment's choice. */
    method OpenFd(fd: Fd)
      modifies this
      ensures View() == Open(old(View()), fd)
    {
      open, received, sent := open + {fd}, received[fd := []], sent[fd := []];
    }

    method RecvFrom(fd: Fd, answer: Recv) returns (buf: seq<Byte>, n: int)
      modifies this`received
      ensures buf == RecvBytes(answer) && n == RecvCount(answer)
      ensures received == old(received)[fd := Stream(old(received), fd) + buf]
    {
      buf, n := RecvBytes(answer), RecvCount(answer);
      received := received[fd := Stream(received, fd) + buf];
    }

    method SendTo(fd: Fd, bytes: seq<Byte>, answer: int) returns (n: int)
      modifies this`sent
      ensures n == if fd in open then answer else -1
      ensures sent == if fd in open then old(sent)[fd := Stream(old(sent), fd) + Take(bytes, answer)] else old(sent)
    {
      if fd in open {
        n := answer;
        sent := sent[fd := Stream(sent, fd) + Take(bytes, answer)];
      } else {
        n := -1;
      }
    }
  }

  /** struct partner_s. */
  class PartnerRecord {
    var sd: Fd
    var bufsize: int
    var buf: Buffer

    function View(): Partner
      reads this
    {
      Partner(sd, bufsize, buf)
    }

    constructor (sd: Fd)
      ensures View() == Partner(sd, 0, NoBuffer)
    {
      this.sd, this.bufsize, this.buf := sd, 0, NoBuffer;
    }
  }

  /** struct _TProxy; `status` stands for the process having exited. */
  class TProxy {
    const listener: Fd
    const kernel: Sockets
    var hashmap: map<Fd, PartnerRecord>
    var isDone: bool
    var status: Status

    /** No record is filed under two keys. */
    ghost predicate Valid()
      reads this
    {
      forall x, y | x in hashmap && y in hashmap && x != y :: hashmap[x] != hashmap[y]
    }

    function Table(): map<Fd, Partner>
      reads this, hashmap.Values
    {
      map x | x in hashmap :: hashmap[x].View()
    }

    function View(): Proxy
      reads this, kernel, hashmap.Values
    {
      Proxy(listener, Table(), isDone, kernel.View(), status)
    }

    constructor (listener: Fd)
      ensures Valid() && View() == Init(listener)
      ensures !isDone && status == Running && kernel.open == {listener} && kernel.interest == map[listener := EPOLLIN]
      ensures fresh(kernel) && hashmap == map[]
    {
      this.listener := listener;
      kernel := new Sockets(listener);
      hashmap, isDone, status := map[], false, Running;
    }

    method SetEPOLL(sd: Fd, events: Interest)
      modifies kernel`interest
      ensures kernel.View() == SetEpoll(old(kernel.View()), sd, events)
      ensures kernel.interest == if sd in kernel.open then old(kernel.interest)[sd := events] else old(kernel.interest)
    {
      var failed := kernel.EpollAdd(sd, events);
      if failed {
        failed := kernel.EpollMod(sd, events);
      }
    }

    /** The record outlives its table entry, so a second call on it can free its buffer twice. */
    method CloseEndpoint(sd: Fd, partner: PartnerRecord)
      requires Valid()
      requires forall x | x in hashmap && x != sd :: hashmap[x] != partner
      modifies this, kernel, partner
      ensures Valid() && View() == CloseConnections(old(View()), sd, old(partner.View()))
      ensures hashmap == if old(partner.bufsize != 0 && partner.buf.Freed?) then old(hashmap) else old(hashmap) - {sd}
      ensures partner.View() == Released(old(partner.View()))
      ensures partner.buf == if old(partner.bufsize) != 0 then Freed else old(partner.buf)
      ensures old(partner.bufsize) != 0 && old(partner.buf).Freed? ==> status == DoubleFree
    {
      kernel.EpollDel(sd);
      var _ := kernel.CloseFd(sd);
      if partner.bufsize != 0 {
        if partner.buf.Freed? {
          status := DoubleFree;
          return;
        }
        partner.buf := Freed;
      }
      Unfile(sd);
      assert forall x | x in hashmap :: hashmap[x].View() == old(hashmap[x].View());
      assert Table() == old(Table()) - {sd};
    }

    method Unfile(sd: Fd)
      requires Valid()
      modifies this`hashmap, this`isDone
      ensures Valid() && hashmap == old(hashmap) - {sd} && isDone
    {
      hashmap := hashmap - {sd};
      isDone := true;
    }

    method NewConnection(a: Answers)
      requires Valid()
      modifies this, kernel
      ensures Valid() && View() == HandleNewConnection(old(View()), a)
      ensures !isDone && (!a.connected ==> hashmap == old(hashmap) && kernel.open == old(kernel.open) - {a.cin, a.cout})
      ensures forall x | x in hashmap :: (x in old(hashmap) && hashmap[x] == old(hashmap)[x]) || fresh(hashmap[x])
      ensures forall r | r in hashmap.Values :: r in old(hashmap.Values) || fresh(r)
    {
      if isDone {
        isDone := false;
      }
      OpenBoth(a.cin, a.cout);
      if a.connected {
        Register(a.cin, a.cout);
      } else {
        Refuse(a.cin, a.cout);
      }
    }

    /** accept and socket. */
    method OpenBoth(cin: Fd, cout: Fd)
      modifies kernel
      ensures View() == old(View()).(kernel := Open(Open(old(kernel.View()), cin), cout))
    {
      kernel.OpenFd(cin);
      kernel.OpenFd(cout);
    }

    method Refuse(cin: Fd, cout: Fd)
      modifies kernel
      ensures View() == old(View()).(kernel := Close(Close(old(kernel.View()), cin), cout))
    {
      var _ := kernel.CloseFd(cin);
      var _ := kernel.CloseFd(cout);
    }

    /** The two table entries of a connection, and their epoll registrations. */
    method Register(cin: Fd, cout: Fd)
      requires Valid()
      modifies this`hashmap, kernel`interest
      ensures Valid()
      ensures View() == old(View()).(
                table := old(Table())[cin := Partner(cout, 0, NoBuffer)][cout := Partner(cin, 0, NoBuffer)],
                kernel := SetEpoll(SetEpoll(old(kernel.View()), cin, EPOLLIN), cout, EPOLLIN))
      ensures forall x | x in hashmap :: (x in old(hashmap) && hashmap[x] == old(hashmap)[x]) || fresh(hashmap[x])
      ensures forall r | r in hashmap.Values :: r in old(hashmap.Values) || fresh(r)
    {
      AddEndpoint(cin, cout);
      AddEndpoint(cout, cin);
      SetEPOLL(cin, EPOLLIN);
      SetEPOLL(cout, EPOLLIN);
    }

    /** File a fresh, empty record for `key` that names `peer`. */
    method AddEndpoint(key: Fd, peer: Fd)
      requires Valid()
      modifies this`hashmap
      ensures Valid() && View() == old(View()).(table := old(Table())[key := Partner(peer, 0, NoBuffer)])
      ensures forall x | x in hashmap :: (x in old(hashmap) && hashmap[x] == old(hashmap)[x]) || fresh(hashmap[x])
      ensures forall r | r in hashmap.Values :: r in old(hashmap.Values) || fresh(r)
    {
      var end := new PartnerRecord(peer);
      hashmap := hashmap[key := end];
      assert forall x | x in hashmap && x != key :: hashmap[x].View() == old(hashmap[x].View());
      assert Table() == old(Table())[key := Partner(peer, 0, NoBuffer)];
    }

    /** Positive result: the connection ended or failed and is to be closed. */
    method ReadFrom(sd: Fd, partner: PartnerRecord, answer: Recv) returns (res: int)
      requires Valid() && sd in hashmap && hashmap[sd] == partner
      modifies kernel, partner
      ensures View() == HandleRead(old(View()), sd, old(partner.View()), answer)
      ensures res == if RecvCount(answer) <= 0 then 1 else 0
      ensures partner.View() == Filled(old(partner.View()), answer)
    {
      var buf, n := kernel.RecvFrom(sd, answer);
      partner.buf := Held(buf);
      partner.bufsize := n;
      SetEPOLL(partner.sd, EPOLLALL);
      kernel.EpollDel(sd);
      res := if partner.bufsize <= 0 then 1 else 0;
      assert forall x | x in hashmap && x != sd :: hashmap[x].View() == old(hashmap[x].View());
      assert Table() == old(Table())[sd := Filled(old(partner.View()), answer)];
    }

    method WriteTo(sd: Fd, outsd: Fd, me: PartnerRecord, answer: int)
      requires Valid() && outsd in hashmap && hashmap[outsd] == me
      modifies this`status, kernel, me
      ensures View() == HandleWrite(old(View()), sd, outsd, answer)
    {
      var _ := kernel.SendTo(sd, BufferBytes(me.buf), answer);
      me.bufsize := 0;
      if me.buf.Freed? {
        status := DoubleFree;
      } else {
        me.buf := Freed;
        SetEPOLL(sd, EPOLLIN);
        SetEPOLL(outsd, EPOLLIN);
      }
      assert forall x | x in hashmap && x != outsd :: hashmap[x].View() == old(hashmap[x].View());
      assert Table() == old(Table())[outsd := Drained(old(me.View()))];
    }

    method ActivateIn(e: Event)
      requires Valid() && (e.fd in hashmap || e.fd == listener)
      modifies this, kernel, hashmap.Values
      ensures Valid() && View() == InPhase(old(View()), e)
      ensures forall r | r in hashmap.Values :: r in old(hashmap.Values) || fresh(r)
      ensures e.fd in old(hashmap) ==> old(hashmap)[e.fd].View() == PartnerLater(old(View()), e.(inp := true))
      ensures forall x | x in hashmap && x != e.fd && e.fd in old(hashmap) :: hashmap[x] != old(hashmap[e.fd])
    {
      if e.fd == listener {
        NewConnection(e.answers);
      } else {
        var partner := hashmap[e.fd];
        var res := ReadFrom(e.fd, partner, e.answers.recv);
        if res > 0 {
          CloseEndpoint(e.fd, partner);
        }
      }
    }

    /** `partner` is the record looked up when the event arrived; it may have left the table since. */
    method ActivateOut(e: Event, partner: PartnerRecord)
      requires Valid()
      requires forall x | x in hashmap && x != e.fd :: hashmap[x] != partner
      modifies this, kernel, hashmap.Values, partner
      ensures Valid() && View() == OutPhase(old(View()), e, old(partner.View()))
      ensures forall r | r in hashmap.Values :: r in old(hashmap.Values)
    {
      if partner.sd in hashmap {
        WriteTo(e.fd, partner.sd, hashmap[partner.sd], e.answers.sendCount);
      } else if isDone {
        CloseEndpoint(e.fd, partner);
      } else {
        status := MeLookupFailed;
      }
    }

    /** An event on a descriptor that the table or the listener accounts for. */
    method ActivateKnown(e: Event)
      requires Valid() && status == Running && (e.fd in hashmap || e.fd == listener)
      modifies this, kernel, hashmap.Values
      ensures Valid() && View() == Activate(old(View()), e)
      ensures forall r | r in hashmap.Values :: r in old(hashmap.Values) || fresh(r)
    {
      var partner: PartnerRecord? := if e.fd in hashmap then hashmap[e.fd] else null;
      if e.inp {
        ActivateIn(e);
      }
      assert partner != null ==> partner.View() == PartnerLater(old(View()), e);
      if e.out {
        if partner == null {
          status := NullDereference;
        } else {
          ActivateOut(e, partner);
        }
      }
    }

    method ActivateTProxy(e: Event)
      requires Valid()
      modifies this, kernel, hashmap.Values
      ensures old(status != Running) ==> status == old(status) && hashmap == old(hashmap)
      ensures old(status == Running && e.fd !in hashmap) && e.fd != listener ==> status == PartnerLookupFailed
      ensures old(status == Running && e.fd !in hashmap) && e.fd == listener && e.out ==> status == NullDereference
      ensures Valid() && View() == Activate(old(View()), e)
      ensures forall r | r in hashmap.Values :: r in old(hashmap.Values) || fresh(r)
    {
      if status == Running {
        if e.fd !in hashmap && e.fd != listener {
          status := PartnerLookupFailed;
        } else {
          ActivateKnown(e);
        }
      }
    }

    /** One epoll_wait batch, event after event. On a relay in good order the masks reported
        up front stay valid to the end, and the relay is in good order afterwards. */
    method Ready(events: seq<Event>)
      requires Valid()
      modifies this, kernel, hashmap.Values
      ensures Valid() && View() == Run(old(View()), events)
      ensures old(Inv(View()) && Isolated(View()) && Batch(View(), events) && AnswersAlong(View(), events)) ==>
                PossibleRun(old(View()), events) && Inv(View()) && Isolated(View())
                && (old(Accounted(View())) ==> Accounted(View()))
    {
      ghost var start := View();
      var i := 0;
      while i < |events|
        invariant 0 <= i <= |events|
        invariant Valid() && Run(View(), events[i..]) == Run(start, events)
        invariant forall r | r in hashmap.Values :: r in old(hashmap.Values) || fresh(r)
      {
        ActivateTProxy(events[i]);
        assert events[i..][1..] == events[i + 1..];
        i := i + 1;
      }
      if Inv(start) && Isolated(start) && Batch(start, events) && AnswersAlong(start, events) {
        BatchIsPossibleRun(start, events);
        RunIsolated(start, events);
        if Accounted(start) { RunAccounted(start, events); }
      }
    }
  }
}
