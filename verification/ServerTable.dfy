/** The server half of simpletcp: a table of accept times kept beside the epoll set, and the
    log that the analyzer takes as ground truth. */
module ServerTable {
  import opened Basics
  import opened TraceFormat
  import opened GroundTruth

  datatype Interest = Input | Output

  /** gettimeofday at the accept. */
  datatype Time = Time(sec: nat, usec: nat)

  /** recv: at most 256 bytes, end of file, or an error. */
  datatype Recv = Message(text: string) | Eof | Error

  datatype Event =
    | Accept(newFd: Fd, now: Time)
    | Ready(fd: Fd, inp: bool, out: bool, recv: Recv)

  datatype Server = Server(
    listener: Fd,
    hashtab: map<Fd, Time>,
    open: set<Fd>,
    interest: map<Fd, Interest>,
    log: string,
    exited: bool)

  /** What printf("%s") prints of a zero-filled buffer. */
  function CString(s: string): (r: string)
    ensures r <= s && '\0' !in r
    ensures |r| < |s| ==> s[|r|] == '\0'
    ensures '\0' !in s ==> r == s
  {
    if s == "" || s[0] == '\0' then "" else [s[0]] + CString(s[1..])
  }

  /** The byte count is unsigned, so a failed recv counts as data, in an empty buffer. A text
      without a zero byte is logged whole. */
  function Logged(r: Recv): (logged: Option<string>)
    ensures r == Eof || r == Message("") ==> logged == None
    ensures r == Error ==> logged == Some("")
    ensures r.Message? && r.text != "" && '\0' !in r.text ==> logged == Some(r.text)
    ensures r.Message? && r.text != "" ==>
              logged.Some? && logged.value <= r.text && '\0' !in logged.value
              && (logged.value == r.text || r.text[|logged.value|] == '\0')
  {
    match r
    case Message(text) => if text == "" then None else Some(CString(text))
    case Eof => None
    case Error => Some("")
  }

  function LogConnection(s: Server, fd: Fd, client: string): Server {
    if fd !in s.hashtab then s.(exited := true)
    else s.(log := s.log + ServerLine(client, s.hashtab[fd].sec, s.hashtab[fd].usec))
  }

  /** EPOLL_CTL_MOD fails silently on a descriptor that is not in the set. */
  function Watch(s: Server, fd: Fd, i: Interest): Server {
    if fd in s.interest then s.(interest := s.interest[fd := i]) else s
  }

  function ServerRead(s: Server, fd: Fd, r: Recv): Server {
    match Logged(r)
    case Some(client) =>
      var t := LogConnection(s, fd, client);
      if t.exited then t else Watch(t, fd, Output)
    case None =>
      Watch(s.(interest := s.interest - {fd}, open := s.open - {fd}, hashtab := s.hashtab - {fd}), fd, Output)
  }

  /** A failed accept returns -1, which is filed in the table but cannot be watched. */
  function ServerAccept(s: Server, newFd: Fd, now: Time): Server {
    var t := s.(hashtab := s.hashtab[newFd := now]);
    if newFd == -1 || newFd in s.interest then t
    else t.(open := s.open + {newFd}, interest := s.interest[newFd := Input])
  }

  function Activate(s: Server, e: Event): Server {
    if s.exited then s
    else
      match e
      case Accept(newFd, now) => ServerAccept(s, newFd, now)
      case Ready(fd, inp, out, recv) =>
        if inp then ServerRead(s, fd, recv) else if out then Watch(s, fd, Input) else s
  }

  function Start(listener: Fd): Server {
    Server(listener, map[], {listener}, map[listener := Input], "", false)
  }

  /** The run over a history, oldest event first. */
  function After(listener: Fd, history: seq<Event>): Server {
    if history == [] then Start(listener)
    else Activate(After(listener, history[..|history| - 1]), history[|history| - 1])
  }

  /** A new descriptor is not open; an event reports registered bits of a connection. */
  predicate Possible(s: Server, e: Event) {
    match e
    case Accept(newFd, _) => newFd == -1 || newFd !in s.open
    case Ready(fd, inp, out, _) =>
      && fd != s.listener && (inp || out) && fd in s.interest
      && (inp ==> s.interest[fd].Input?) && (out ==> s.interest[fd].Output?)
  }

  predicate PossibleHistory(listener: Fd, history: seq<Event>) {
    history == [] ||
    (PossibleHistory(listener, history[..|history| - 1]) &&
     Possible(After(listener, history[..|history| - 1]), history[|history| - 1]))
  }

  // ------------------------------------------------- what the history says

  /** When the connection now behind `fd` was accepted. */
  function LatestAccept(history: seq<Event>, fd: Fd): Option<Time> {
    if history == [] then None
    else
      var e := history[|history| - 1];
      if e.Accept? && e.newFd == fd then Some(e.now) else LatestAccept(history[..|history| - 1], fd)
  }

  /** The connections a correct log lists, told from the history alone. */
  function Connections(history: seq<Event>): seq<Seen> {
    if history == [] then []
    else
      var init, e := history[..|history| - 1], history[|history| - 1];
      Connections(init) +
      if e.Ready? && e.inp && Logged(e.recv).Some? && LatestAccept(init, e.fd).Some? then
        var t := LatestAccept(init, e.fd).value;
        [Seen(Logged(e.recv).value, t.sec, t.usec)]
      else []
  }

  /** What the server waits for on a descriptor, told from the history alone: a request from
      the accept on, a chance to answer after each request, the next request after that, and
      nothing after the end of file. */
  function Awaited(listener: Fd, history: seq<Event>, fd: Fd): Option<Interest> {
    if fd == listener then Some(Input)
    else if history == [] then None
    else
      var e, before := history[|history| - 1], Awaited(listener, history[..|history| - 1], fd);
      match e
      case Accept(newFd, _) => if newFd == fd && fd != -1 then Some(Input) else before
      case Ready(other, inp, out, recv) =>
        if other != fd then before
        else if inp && (recv == Eof || recv == Message("")) then None
        else Some(if inp then Output else Input)
  }

  function WatchedFor(s: Server, fd: Fd): Option<Interest> {
    if fd in s.interest then Some(s.interest[fd]) else None
  }

  /** Open, watched and tabled are exactly the connections that the history leaves, each waiting
      for what it should; a failed accept leaves one entry more, under -1. */
  ghost predicate Watches(s: Server, history: seq<Event>) {
    && (forall fd :: fd in s.open <==> fd in s.interest)
    && (forall fd | fd != -1 :: fd in s.hashtab <==> fd in s.interest && fd != s.listener)
    && (-1 in s.hashtab <==> LatestAccept(history, -1).Some?)
    && (forall fd :: Awaited(s.listener, history, fd) == WatchedFor(s, fd))
  }

  ghost predicate Agrees(s: Server, history: seq<Event>) {
    && !s.exited && s.listener in s.open && -1 !in s.open
    && Watches(s, history)
    && (forall fd | fd in s.hashtab :: LatestAccept(history, fd) == Some(s.hashtab[fd]))
    && s.log == ServerLog(Connections(history))
  }

  lemma ConcatAssociates(a: string, b: string, c: string)
    ensures a + (b + c) == (a + b) + c
  {
  }

  lemma {:induction false} ServerLogSnoc(seen: seq<Seen>, last: Seen)
    ensures ServerLog(seen + [last]) == ServerLog(seen) + SeenLine(last)
    decreases |seen|
  {
    if seen == [] {
      assert seen + [last] == [last] && [last][1..] == [];
      assert ServerLog([last]) == SeenLine(last) + ServerLog([]);
    } else {
      ServerLogSnoc(seen[1..], last);
      assert (seen + [last])[1..] == seen[1..] + [last];
      ConcatAssociates(SeenLine(seen[0]), ServerLog(seen[1..]), SeenLine(last));
    }
  }

  /** A readiness event changes nothing for other descriptors, and closes or turns its own. */
  lemma ReadyChanges(s: Server, e: Event)
    requires !s.exited && e.Ready? && Possible(s, e) && e.fd in s.hashtab
    ensures var t := Activate(s, e);
            var ends := e.inp && (e.recv == Eof || e.recv == Message(""));
            && !t.exited
            && (forall fd | fd != e.fd ::
                  && (fd in t.open <==> fd in s.open) && (fd in t.hashtab <==> fd in s.hashtab)
                  && WatchedFor(t, fd) == WatchedFor(s, fd))
            && WatchedFor(t, e.fd) == (if ends then None else Some(if e.inp then Output else Input))
            && (e.fd in t.hashtab <==> !ends)
            && (e.fd in t.open <==> !ends && e.fd in s.open)
  {
  }

  lemma StepWatches(s: Server, history: seq<Event>, e: Event)
    requires Agrees(s, history) && Possible(s, e)
    ensures Watches(Activate(s, e), history + [e])
  {
    var all, t := history + [e], Activate(s, e);
    assert all[..|all| - 1] == history;
    if e.Ready? {
      ReadyChanges(s, e);
    }
    forall fd ensures Awaited(s.listener, all, fd) == WatchedFor(t, fd) {
      assert Awaited(s.listener, history, fd) == WatchedFor(s, fd);
    }
  }

  lemma StepAgrees(s: Server, history: seq<Event>, e: Event)
    requires Agrees(s, history) && Possible(s, e)
    ensures Agrees(Activate(s, e), history + [e])
  {
    var all, t := history + [e], Activate(s, e);
    assert all[..|all| - 1] == history;
    if e.Ready? && e.inp && Logged(e.recv).Some? {
      var at := s.hashtab[e.fd];
      var seen := Seen(Logged(e.recv).value, at.sec, at.usec);
      assert Connections(all) == Connections(history) + [seen];
      ServerLogSnoc(Connections(history), seen);
    } else {
      assert Connections(all) == Connections(history);
    }
    forall fd | fd in t.hashtab ensures LatestAccept(all, fd) == Some(t.hashtab[fd]) {
    }
    StepWatches(s, history, e);
  }

  lemma StartAgrees(listener: Fd)
    requires listener >= 0
    ensures Agrees(Start(listener), [])
  {
  }

  /** Main result: on every run, with any reuse of descriptors, the table holds the latest accept
      time of each watched connection, the lookup never fails, and the log is what the history
      alone prescribes. */
  lemma {:induction false} TableAgrees(listener: Fd, history: seq<Event>)
    requires listener >= 0 && PossibleHistory(listener, history)
    ensures Agrees(After(listener, history), history)
    decreases |history|
  {
    if history == [] {
      StartAgrees(listener);
    } else {
      var init, e := history[..|history| - 1], history[|history| - 1];
      assert history == init + [e];
      TableAgrees(listener, init);
      StepAgrees(After(listener, init), init, e);
    }
  }

  /** The other descriptors of a batch keep the bits already reported for them. */
  lemma OtherStaysPossible(s: Server, e: Event, other: Event)
    requires s.listener in s.open && s.interest.Keys <= s.open && !s.exited
    requires Possible(s, e) && Possible(s, other) && other.Ready? && (e.Ready? ==> e.fd != other.fd)
    ensures Possible(Activate(s, e), other)
  {
  }

  /** Each request received, as the client sent it, with the time its connection was accepted. */
  function Requests(history: seq<Event>): seq<Seen> {
    if history == [] then []
    else
      var init, e := history[..|history| - 1], history[|history| - 1];
      if e.Ready? && e.inp && e.recv.Message? && LatestAccept(init, e.fd).Some? then
        var t := LatestAccept(init, e.fd).value;
        Requests(init) + [Seen(e.recv.text, t.sec, t.usec)]
      else Requests(init)
  }

  /** Every request is a client's name: not empty, and without the characters that end a name. */
  predicate NamesOnly(history: seq<Event>) {
    forall e | e in history && e.Ready? && e.inp ::
      e.recv != Error &&
      (e.recv.Message? ==> e.recv.text != "" && forall c | c in e.recv.text :: c !in {';', '\n', '\0'})
  }

  lemma {:induction false} ConnectionsAreRequests(history: seq<Event>)
    requires NamesOnly(history)
    ensures Connections(history) == Requests(history)
    ensures forall s | s in Requests(history) :: ';' !in s.client && '\n' !in s.client
    decreases |history|
  {
    if history != [] {
      var init, e := history[..|history| - 1], history[|history| - 1];
      assert e in history && forall x | x in init :: x in history;
      ConnectionsAreRequests(init);
    }
  }

  /** Main result for clients that send their names: the analyzer reads back exactly the names
      they sent, in order, each with the time of its own accept. */
  lemma RequestsAreGroundTruth(listener: Fd, server: string, history: seq<Event>)
    requires listener >= 0 && PossibleHistory(listener, history) && NamesOnly(history)
    ensures FileRecords(server, Lines(After(listener, history).log)) == Some(SeenRecords(server, Requests(history)))
  {
    ConnectionsAreRequests(history);
    LogIsGroundTruth(listener, server, history);
  }

  /** Ground truth end to end: clients that send clean names are read back by the analyzer
      exactly as connected, each with its own accept time. */
  lemma LogIsGroundTruth(listener: Fd, server: string, history: seq<Event>)
    requires listener >= 0 && PossibleHistory(listener, history)
    requires forall c | c in Connections(history) :: ';' !in c.client && '\n' !in c.client
    ensures FileRecords(server, Lines(After(listener, history).log)) == Some(SeenRecords(server, Connections(history)))
  {
    TableAgrees(listener, history);
    ServerLogRoundTrip(server, Connections(history));
  }

  // ------------------------------------------------------------ the machine

  class SimpleTCPServer {
    const sd: Fd
    var hashtab: map<Fd, Time>
    var open: set<Fd>
    var interest: map<Fd, Interest>
    var log: string
    var exited: bool

    function View(): Server
      reads this
    {
      Server(sd, hashtab, open, interest, log, exited)
    }

    constructor (sd: Fd)
      ensures View() == Start(sd)
    {
      this.sd := sd;
      hashtab, open, interest, log, exited := map[], {sd}, map[sd := Input], "", false;
    }

    method EpollMod(fd: Fd, i: Interest)
      modifies this`interest
      ensures View() == Watch(old(View()), fd, i)
    {
      if fd in interest {
        interest := interest[fd := i];
      }
    }

    /** What a caller sees: one line more that reads back as the client with its accept time, or
        the exit with the log as it was. */
    method LogServerConnection(fd: Fd, client: string)
      modifies this`log, this`exited
      ensures View() == LogConnection(old(View()), fd, client)
      ensures fd !in hashtab ==> exited && log == old(log)
      ensures fd in hashtab ==>
                exited == old(exited) && log == old(log) + SeenLine(Seen(client, hashtab[fd].sec, hashtab[fd].usec))
    {
      if fd !in hashtab {
        exited := true;
      } else {
        var time := hashtab[fd];
        log := log + ServerLine(client, time.sec, time.usec);
      }
    }

    /** What a caller sees: end of file takes the connection out of the table, the epoll set and
        the open descriptors and logs nothing; anything else is logged, an error as an empty name,
        and output is awaited next unless the table has no entry. */
    method ReadEvent(fd: Fd, recv: Recv)
      requires !exited
      modifies this
      ensures View() == ServerRead(old(View()), fd, recv)
      ensures Logged(recv).None? ==>
                && !exited && log == old(log)
                && hashtab == old(hashtab) - {fd} && open == old(open) - {fd} && interest == old(interest) - {fd}
      ensures Logged(recv).Some? ==> hashtab == old(hashtab) && open == old(open) && (exited <==> fd !in hashtab)
      ensures Logged(recv).Some? && fd in hashtab ==>
                && log == old(log) + SeenLine(Seen(Logged(recv).value, hashtab[fd].sec, hashtab[fd].usec))
                && (fd in interest ==> interest[fd] == Output)
                && interest.Keys == old(interest).Keys
                && forall other | other in interest && other != fd :: interest[other] == old(interest[other])
    {
      match Logged(recv) {
        case Some(client) =>
          LogServerConnection(fd, client);
          if exited {
            return;
          }
        case None =>
          interest := interest - {fd};
          open := open - {fd};
          hashtab := hashtab - {fd};
      }
      EpollMod(fd, Output);
    }

    method ActivateServer(e: Event, ghost history: seq<Event>)
      modifies this
      ensures View() == Activate(old(View()), e)
      ensures old(Agrees(View(), history) && Possible(View(), e)) ==> Agrees(View(), history + [e])
    {
      ghost var before := View();
      if !exited {
        match e {
          case Accept(newFd, now) =>
            hashtab := hashtab[newFd := now];
            if newFd != -1 && newFd !in interest {
              open := open + {newFd};
              interest := interest[newFd := Input];
            }
          case Ready(fd, inp, out, recv) =>
            if inp {
              ReadEvent(fd, recv);
            } else if out {
              EpollMod(fd, Input);
            }
        }
      }
      if Agrees(before, history) && Possible(before, e) {
        StepAgrees(before, history, e);
      }
    }
  }
}
