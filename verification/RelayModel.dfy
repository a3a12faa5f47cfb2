/** The values of the TCP relay: a small kernel (descriptors, epoll interest, byte
    histories), the table of partner records, and the functions that say what each
    handler does to them. The classes of RelayMachine are proved against these. */
module RelayModel {
  import opened Basics

  /** The event mask a descriptor is registered for. */
  datatype Interest = Interest(inp: bool, out: bool)

  const NONE := Interest(false, false)
  const EPOLLIN := Interest(true, false)
  const EPOLLALL := Interest(true, true)

  /** A heap buffer, as far as the relay can tell: never allocated, holding bytes, or freed. */
  datatype Buffer = NoBuffer | Held(bytes: seq<Byte>) | Freed

  /** A partner_s: the other descriptor, and the chunk read from this one that waits for it. */
  datatype Partner = Partner(sd: Fd, bufsize: int, buf: Buffer)

  /** The kernel. A history that is absent reads as the empty stream. */
  datatype Kernel = Kernel(
    open: set<Fd>,
    interest: map<Fd, Interest>,
    received: map<Fd, seq<Byte>>,
    sent: map<Fd, seq<Byte>>)

  datatype Status = Running | PartnerLookupFailed | MeLookupFailed | NullDereference | DoubleFree

  datatype Proxy = Proxy(
    listener: Fd,
    table: map<Fd, Partner>,
    isDone: bool,
    kernel: Kernel,
    status: Status)

  datatype Recv = Data(bytes: seq<Byte>) | Eof | Error

  /** What the kernel answers to the system calls made while one event is handled. */
  datatype Answers = Answers(cin: Fd, cout: Fd, connected: bool, recv: Recv, sendCount: int)

  datatype Event = Event(fd: Fd, inp: bool, out: bool, answers: Answers)

  // ---------------------------------------------------------------- kernel

  function Registered(k: Kernel, fd: Fd): Interest {
    if fd in k.interest then k.interest[fd] else NONE
  }

  function Stream(m: map<Fd, seq<Byte>>, fd: Fd): seq<Byte> {
    if fd in m then m[fd] else []
  }

  function Received(p: Proxy, fd: Fd): seq<Byte> {
    Stream(p.kernel.received, fd)
  }

  function Sent(p: Proxy, fd: Fd): seq<Byte> {
    Stream(p.kernel.sent, fd)
  }

  /** epoll_ctl ADD and then MOD: both fail silently on a closed descriptor. */
  function SetEpoll(k: Kernel, fd: Fd, events: Interest): Kernel {
    if fd in k.open then k.(interest := k.interest[fd := events]) else k
  }

  function ResetEpoll(k: Kernel, fd: Fd): Kernel {
    k.(interest := k.interest - {fd})
  }

  /** A closed descriptor leaves every epoll set. */
  function Close(k: Kernel, fd: Fd): Kernel {
    k.(open := k.open - {fd}, interest := k.interest - {fd})
  }

  /** accept or socket: a descriptor with fresh byte histories. */
  function Open(k: Kernel, fd: Fd): Kernel {
    k.(open := k.open + {fd}, received := k.received[fd := []], sent := k.sent[fd := []])
  }

  function RecvBytes(r: Recv): seq<Byte> {
    if r.Data? then r.bytes else []
  }

  function RecvCount(r: Recv): int {
    match r
    case Data(bytes) => |bytes|
    case Eof => 0
    case Error => -1
  }

  function BufferBytes(b: Buffer): seq<Byte> {
    if b.Held? then b.bytes else []
  }

  /** The bytes a send call accepts: a prefix, or none when it fails. */
  function Take(bytes: seq<Byte>, n: int): seq<Byte> {
    if n <= 0 then [] else if n <= |bytes| then bytes[..n] else bytes
  }

  // -------------------------------------------------------------- handlers

  /** Closing frees the buffer of a record with a non-zero bufsize; the record itself stays. */
  function Released(partner: Partner): Partner {
    if partner.bufsize != 0 then partner.(buf := Freed) else partner
  }

  /** A buffer that is freed a second time ends the process before the table is touched. */
  function CloseConnections(p: Proxy, sd: Fd, partner: Partner): Proxy {
    var q := p.(kernel := Close(ResetEpoll(p.kernel, sd), sd));
    if partner.bufsize != 0 && partner.buf.Freed? then q.(status := DoubleFree)
    else q.(table := p.table - {sd}, isDone := true)
  }

  function HandleNewConnection(p: Proxy, a: Answers): Proxy {
    var k := Open(Open(p.kernel, a.cin), a.cout);
    if a.connected then
      p.(isDone := false,
         table := p.table[a.cin := Partner(a.cout, 0, NoBuffer)][a.cout := Partner(a.cin, 0, NoBuffer)],
         kernel := SetEpoll(SetEpoll(k, a.cin, EPOLLIN), a.cout, EPOLLIN))
    else
      p.(isDone := false, kernel := Close(Close(k, a.cin), a.cout))
  }

  /** The record after a read: whatever chunk it held is overwritten. */
  function Filled(partner: Partner, r: Recv): Partner {
    partner.(bufsize := RecvCount(r), buf := Held(RecvBytes(r)))
  }

  function HandleRead(p: Proxy, sd: Fd, partner: Partner, r: Recv): Proxy {
    var k := p.kernel.(received := p.kernel.received[sd := Received(p, sd) + RecvBytes(r)]);
    p.(table := p.table[sd := Filled(partner, r)],
       kernel := ResetEpoll(SetEpoll(k, partner.sd, EPOLLALL), sd))
  }

  /** The record after a write: emptied whatever the send count was. */
  function Drained(me: Partner): Partner {
    me.(bufsize := 0, buf := Freed)
  }

  function HandleWrite(p: Proxy, sd: Fd, outsd: Fd, sendCount: int): Proxy
    requires outsd in p.table
  {
    var me := p.table[outsd];
    var k := if sd in p.kernel.open
             then p.kernel.(sent := p.kernel.sent[sd := Sent(p, sd) + Take(BufferBytes(me.buf), sendCount)])
             else p.kernel;
    var q := p.(table := p.table[outsd := Drained(me)]);
    if me.buf.Freed? then q.(kernel := k, status := DoubleFree)
    else q.(kernel := SetEpoll(SetEpoll(k, sd, EPOLLIN), outsd, EPOLLIN))
  }

  // -------------------------------------------------------------- dispatch

  function InPhase(p: Proxy, e: Event): Proxy
    requires e.fd in p.table || e.fd == p.listener
  {
    if e.fd == p.listener then HandleNewConnection(p, e.answers)
    else
      var q := HandleRead(p, e.fd, p.table[e.fd], e.answers.recv);
      if RecvCount(e.answers.recv) > 0 then q
      else CloseConnections(q, e.fd, Filled(p.table[e.fd], e.answers.recv))
  }

  /** The record looked up when the event arrived, as the write half finds it: the read half
      may have refilled it, or released it and taken it off the table. */
  function PartnerLater(p: Proxy, e: Event): Partner
    requires e.fd in p.table
  {
    var partner := p.table[e.fd];
    if !e.inp || e.fd == p.listener then partner
    else if RecvCount(e.answers.recv) > 0 then Filled(partner, e.answers.recv)
    else Released(Filled(partner, e.answers.recv))
  }

  function OutPhase(p: Proxy, e: Event, partner: Partner): Proxy {
    if partner.sd in p.table then HandleWrite(p, e.fd, partner.sd, e.answers.sendCount)
    else if p.isDone then CloseConnections(p, e.fd, partner)
    else p.(status := MeLookupFailed)
  }

  function Activate(p: Proxy, e: Event): Proxy {
    if p.status != Running then p
    else if e.fd !in p.table && e.fd != p.listener then p.(status := PartnerLookupFailed)
    else
      var q := if e.inp then InPhase(p, e) else p;
      if !e.out then q
      else if e.fd in p.table then OutPhase(q, e, PartnerLater(p, e))
      else q.(status := NullDereference)
  }

  function Run(p: Proxy, events: seq<Event>): Proxy
    decreases |events|
  {
    if events == [] then p else Run(Activate(p, events[0]), events[1..])
  }

  function Init(listener: Fd): Proxy {
    Proxy(listener, map[], false, Kernel({listener}, map[listener := EPOLLIN], map[], map[]), Running)
  }

  // ----------------------------------------------------------- environment

  /** An event reports at least one bit, and only bits that are registered. */
  predicate Enabled(p: Proxy, e: Event) {
    && (e.inp || e.out)
    && (e.inp ==> Registered(p.kernel, e.fd).inp)
    && (e.out ==> Registered(p.kernel, e.fd).out)
  }

  /** No remaining record names `fd` as its partner. */
  predicate Unnamed(p: Proxy, fd: Fd) {
    forall x | x in p.table :: p.table[x].sd != fd
  }

  /** The kernel never hands out a descriptor that is open, and recv fills at most a page. */
  predicate KernelAnswers(p: Proxy, e: Event) {
    var a := e.answers;
    && (e.fd == p.listener ==> a.cin != a.cout && a.cin !in p.kernel.open && a.cout !in p.kernel.open)
    && (a.recv.Data? ==> 1 <= |a.recv.bytes| <= PAGE_SIZE)
  }

  /** The relay also depends on a number not being reused while a record still names it. */
  predicate FreshAnswers(p: Proxy, e: Event) {
    e.fd == p.listener ==> Unnamed(p, e.answers.cin) && Unnamed(p, e.answers.cout)
  }

  predicate Possible(p: Proxy, e: Event) {
    Enabled(p, e) && KernelAnswers(p, e) && FreshAnswers(p, e)
  }

  predicate PossibleRun(p: Proxy, events: seq<Event>)
    decreases |events|
  {
    events == [] || (Possible(p, events[0]) && PossibleRun(Activate(p, events[0]), events[1..]))
  }
}
