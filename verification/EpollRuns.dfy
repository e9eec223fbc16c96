/** Runs of the server: any sequence of client registrations, epoll waits and handled events. */
module EpollRuns {
  import opened RequestVote
  import opened EpollModel
  import opened EpollInvariant

  /** The server between two steps, with the reported events that are still to be handled. */
  datatype Config = Config(server: State, pending: seq<Event>)

  datatype Step =
    | Register(node: int, fd: int, connected: bool, addSucceeds: bool)
    | Wait(events: seq<Event>)
    | Serve(io: Io)

  /** One epoll_wait reports a descriptor at most once. */
  ghost predicate Reported(s: State, events: seq<Event>) {
    && (forall i :: 0 <= i < |events| ==> Reportable(s, events[i]))
    && forall i, j :: 0 <= i < j < |events| ==> events[i].fd != events[j].fd
  }

  /** A new socket gets a descriptor that is not open at the moment, possibly one that has been used
      and closed before. The kernel's report is about the state at the wait; the events are then
      handled one after the other. */
  ghost predicate Permitted(c: Config, step: Step) {
    match step
    case Register(node, fd, connected, addSucceeds) => fd !in c.server.open
    case Wait(events) => c.pending == [] && Reported(c.server, events)
    case Serve(io) => c.pending != [] && Possible(c.server, io)
  }

  ghost function Next(c: Config, step: Step): Config
    requires Permitted(c, step)
  {
    match step
    case Register(node, fd, connected, addSucceeds) =>
      c.(server := RegisterClient(c.server, node, fd, connected, addSucceeds))
    case Wait(events) => c.(pending := events)
    case Serve(io) => Config(Handle(c.server, c.pending[0], io), c.pending[1..])
  }

  ghost predicate RunOk(c: Config, steps: seq<Step>)
    decreases |steps|
  {
    steps == [] || (Permitted(c, steps[0]) && RunOk(Next(c, steps[0]), steps[1..]))
  }

  ghost function Run(c: Config, steps: seq<Step>): Config
    requires RunOk(c, steps)
    decreases |steps|
  {
    if steps == [] then c else Run(Next(c, steps[0]), steps[1..])
  }

  ghost predicate ConfigInv(c: Config) {
    Inv(c.server) && Reported(c.server, c.pending)
  }

  function Start(listenfd: int, udpfd: int): Config {
    Config(Init(listenfd, udpfd), [])
  }

  // ----- one event does not touch what the others are about

  lemma {:induction false} AcceptAllView(s: State, fds: seq<int>, fd: int)
    requires Acceptable(s.open, fds) && fd in s.open
    ensures View(AcceptAll(s, fds), fd) == View(s, fd)
    decreases |fds|
  {
    if fds != [] {
      AcceptAllView(s.(interest := s.interest[fds[0] := LISTEN_MASK], open := s.open + {fds[0]}), fds[1..], fd);
    }
  }

  lemma ReadableOnlyOn(s: State, ev: Event, input: Input, reply: VoteResp)
    ensures OnlyOn(s, Readable(s, ev, input, reply).0, ev.fd)
  {
    RmBadFdOnlyOn(s, ev.fd);
    EpollModOnlyOn(s, ev.fd, ev.events + {OUT});
  }

  lemma WritableOnlyOn(s: State, ev: Event, writes: nat -> WriteResult)
    ensures OnlyOn(s, Writable(s, ev, writes), ev.fd)
  {
    if ev.fd in s.queues {
      var drained := Drain(s, ev.fd, writes, 0);
      DrainOnlyOn(s, ev.fd, writes, 0);
      RmBadFdOnlyOn(drained, ev.fd);
      EpollModOnlyOn(drained, ev.fd, ev.events - {OUT} + {IN});
    }
  }

  /** Handling an event leaves every other open descriptor open, watched and armed as it was. */
  lemma HandleView(s: State, ev: Event, io: Io, fd: int)
    requires Possible(s, io) && fd in s.open && fd != ev.fd
    ensures View(Handle(s, ev, io), fd) == View(s, fd)
  {
    RmBadFdOnlyOn(s, ev.fd);
    AcceptAllView(s, io.accepted, fd);
    var input := ReadInput(Flatten(io.chunks), io.end);
    ReadableOnlyOn(s, ev, input, io.reply);
    var read := if IN in ev.events then Readable(s, ev, input, io.reply).0 else s;
    WritableOnlyOn(read, ev, io.writes);
  }

  /** The rest of a batch is still a truthful report after an event of it has been handled. */
  lemma PendingStaysReported(s: State, events: seq<Event>, io: Io)
    requires Inv(s) && events != [] && Reported(s, events) && Possible(s, io)
    ensures Reported(Handle(s, events[0], io), events[1..])
  {
    forall i | 1 <= i < |events|
      ensures Reportable(Handle(s, events[0], io), events[i])
    {
      HandleView(s, events[0], io, events[i].fd);
    }
  }

  lemma RegisterView(s: State, node: int, fd: int, connected: bool, addSucceeds: bool, f: int)
    requires f != fd
    ensures View(RegisterClient(s, node, fd, connected, addSucceeds), f) == View(s, f)
  {
  }

  lemma StepInv(c: Config, step: Step)
    requires ConfigInv(c) && Permitted(c, step)
    ensures ConfigInv(Next(c, step))
  {
    match step
    case Register(node, fd, connected, addSucceeds) =>
      RegisterClientInv(c.server, node, fd, connected, addSucceeds);
      forall i | 0 <= i < |c.pending|
        ensures Reportable(Next(c, step).server, c.pending[i])
      {
        RegisterView(c.server, node, fd, connected, addSucceeds, c.pending[i].fd);
      }
    case Wait(events) =>
    case Serve(io) =>
      HandleInv(c.server, c.pending[0], io);
      PendingStaysReported(c.server, c.pending, io);
  }

  /** The invariant holds after every run, whatever the peers, the kernel and the election logic do
      and in whatever way descriptor numbers come back. */
  lemma {:induction false} RunInv(c: Config, steps: seq<Step>)
    requires ConfigInv(c) && RunOk(c, steps)
    ensures ConfigInv(Run(c, steps))
    decreases |steps|
  {
    if steps != [] {
      StepInv(c, steps[0]);
      RunInv(Next(c, steps[0]), steps[1..]);
    }
  }

  /** The invariant spelled out for the constructed server: both own sockets stay watched as they were
      and never get a queue, what is armed for writing has one, responses are conserved in order, and
      an allocated response is either freed once or queued once. */
  lemma RunGuarantees(listenfd: int, udpfd: int, steps: seq<Step>, fd: int, p: nat)
    requires listenfd != udpfd && RunOk(Start(listenfd, udpfd), steps)
    ensures var s := Run(Start(listenfd, udpfd), steps).server;
      && s.listenfd == listenfd && s.udpfd == udpfd
      && (fd == listenfd || fd == udpfd ==> fd in s.interest && s.interest[fd] == {IN, ET} && fd !in s.queues)
      && (fd in s.interest && OUT in s.interest[fd] ==> fd in s.queues)
      && Log(s.enqueued, fd) == Log(s.taken, fd) + Log(s.queues, fd)
      && s.frees[p] <= 1 && (s.frees[p] == 1 <==> p < s.mallocs && forall f, i :: !At(s.queues, f, i, p))
      && (forall f, i, g, j :: At(s.queues, f, i, p) && At(s.queues, g, j, p) ==> f == g && i == j)
  {
    InitInv(listenfd, udpfd);
    RunInv(Start(listenfd, udpfd), steps);
    RunKeepsSockets(Start(listenfd, udpfd), steps);
  }

  lemma {:induction false} RunKeepsSockets(c: Config, steps: seq<Step>)
    requires RunOk(c, steps)
    ensures var t := Run(c, steps).server; t.listenfd == c.server.listenfd && t.udpfd == c.server.udpfd
    decreases |steps|
  {
    if steps != [] {
      if steps[0].Serve? {
        HandleKeepsSockets(c.server, c.pending[0], steps[0].io);
      }
      RunKeepsSockets(Next(c, steps[0]), steps[1..]);
    }
  }

  lemma HandleKeepsSockets(s: State, ev: Event, io: Io)
    requires Possible(s, io)
    ensures var t := Handle(s, ev, io); t.listenfd == s.listenfd && t.udpfd == s.udpfd && t.clients == s.clients
  {
    RmBadFdOnlyOn(s, ev.fd);
    AcceptAllSockets(s, io.accepted);
    var input := ReadInput(Flatten(io.chunks), io.end);
    ReadableOnlyOn(s, ev, input, io.reply);
    WritableOnlyOn(ReadPart(s, ev, input, io.reply).0, ev, io.writes);
  }

  lemma {:induction false} AcceptAllSockets(s: State, fds: seq<int>)
    ensures var t := AcceptAll(s, fds); t.listenfd == s.listenfd && t.udpfd == s.udpfd && t.clients == s.clients
    decreases |fds|
  {
    if fds != [] {
      AcceptAllSockets(s.(interest := s.interest[fds[0] := LISTEN_MASK], open := s.open + {fds[0]}), fds[1..]);
    }
  }

  /** For a reported event the failure branches behind the registration for write and behind the
      queue lookup are dead: arming succeeds, and a writable descriptor has a queue. */
  lemma ReportedEventsGoThrough(s: State, ev: Event, q: VoteReq, input: Input, reply: VoteResp)
    requires Inv(s) && Reportable(s, ev)
    ensures Readable(s, ev, Request(q), reply).1
    ensures OUT in ev.events ==> ev.fd in s.queues && ev.fd in Readable(s, ev, input, reply).0.queues
  {
  }

  // ----- whole batches

  /** The loop over the events of one wait. */
  ghost predicate BatchOk(s: State, events: seq<Event>, ios: seq<Io>)
    decreases |events|
  {
    && |events| == |ios|
    && (events == [] || (Possible(s, ios[0]) && BatchOk(Handle(s, events[0], ios[0]), events[1..], ios[1..])))
  }

  ghost function HandleAll(s: State, events: seq<Event>, ios: seq<Io>): State
    requires BatchOk(s, events, ios)
    decreases |events|
  {
    if events == [] then s else HandleAll(Handle(s, events[0], ios[0]), events[1..], ios[1..])
  }

  function Serves(ios: seq<Io>): seq<Step> {
    if ios == [] then [] else [Serve(ios[0])] + Serves(ios[1..])
  }

  /** The loop is a run of the state machine. */
  lemma {:induction false} BatchIsRun(s: State, events: seq<Event>, ios: seq<Io>)
    requires BatchOk(s, events, ios)
    ensures RunOk(Config(s, events), Serves(ios))
    ensures Run(Config(s, events), Serves(ios)) == Config(HandleAll(s, events, ios), [])
    decreases |events|
  {
    if events != [] {
      BatchIsRun(Handle(s, events[0], ios[0]), events[1..], ios[1..]);
      assert Serves(ios)[1..] == Serves(ios[1..]);
    }
  }

  // ----- longer runs

  lemma {:induction false} Append(c: Config, steps: seq<Step>, step: Step) returns (all: seq<Step>)
    requires RunOk(c, steps) && Permitted(Run(c, steps), step)
    ensures all == steps + [step] && RunOk(c, all) && Run(c, all) == Next(Run(c, steps), step)
    decreases |steps|
  {
    all := steps + [step];
    if steps != [] {
      var rest := Append(Next(c, steps[0]), steps[1..], step);
      assert all[1..] == rest;
    } else {
      assert all[1..] == [];
    }
  }

  /** One reported event, and what happens while it is handled. */
  lemma WaitAndServe(c: Config, steps: seq<Step>, ev: Event, io: Io) returns (all: seq<Step>)
    requires RunOk(c, steps) && Run(c, steps).pending == []
    requires Reportable(Run(c, steps).server, ev) && Possible(Run(c, steps).server, io)
    ensures RunOk(c, all) && Run(c, all) == Config(Handle(Run(c, steps).server, ev, io), [])
  {
    all := Append(c, steps, Wait([ev]));
    all := Append(c, all, Serve(io));
  }

  // ----- the destructor

  /** The destructor empties all queues and frees what was in them. */
  function Destroy(s: State): State {
    s.(queues := map[], live := {}, frees := s.frees + multiset(s.live),
       open := s.open - {s.listenfd, s.udpfd}, interest := s.interest - {s.listenfd, s.udpfd})
  }

  /** Whatever the run was, after the destructor every response that was ever allocated has been
      freed exactly once, and nothing else has been freed. */
  lemma RunThenDestroy(listenfd: int, udpfd: int, steps: seq<Step>, p: nat)
    requires listenfd != udpfd && RunOk(Start(listenfd, udpfd), steps)
    ensures var t := Destroy(Run(Start(listenfd, udpfd), steps).server);
      && t.live == {} && t.frees[p] == (if p < t.mallocs then 1 else 0)
      && t.queues == map[] && listenfd !in t.open && udpfd !in t.open
  {
    InitInv(listenfd, udpfd);
    RunInv(Start(listenfd, udpfd), steps);
    RunKeepsSockets(Start(listenfd, udpfd), steps);
  }
}
