/** Which descriptors are open and what they are watched for: after every event, and over whole runs. */
module Watching {
  import opened DataProtocal
  import opened RequestVote
  import opened EpollModel
  import opened EpollInvariant
  import opened EpollRuns
  import opened Stranding

  /** A report that is not about reading or writing. */
  predicate Trouble(ev: Event) {
    ERR in ev.events || HUP in ev.events || (IN !in ev.events && OUT !in ev.events)
  }

  /** Reading fails, or the other side has closed. */
  predicate ReadsNothing(ev: Event, io: Io) {
    IN in ev.events && (io.end == ReadFailed || Flatten(io.chunks) == [])
  }

  /** The event gets to the write branch. */
  predicate Writes(ev: Event, io: Io) {
    OUT in ev.events && GoesOn(ev, io)
  }

  /** One of n write calls fails. */
  predicate SomeWriteFails(writes: nat -> WriteResult, k: nat, n: nat) {
    exists i :: k <= i < k + n && writes(i) == Failed
  }

  // ----- the drain loop

  predicate Watched(s: State, fd: int) {
    fd in s.open && fd in s.interest
  }

  predicate Gone(s: State, fd: int) {
    fd !in s.open && fd !in s.interest
  }

  predicate Peer(s: State, fd: int) {
    fd != s.listenfd && fd != s.udpfd
  }

  lemma DrainOneWatches(s: State, fd: int, w: WriteResult)
    requires Peer(s, fd) && Log(s.queues, fd) != [] && Watched(s, fd)
    ensures var t := DrainOne(s, fd, w);
      && t.clients == s.clients && Peer(t, fd)
      && (if w == Failed && fd !in s.clients then Gone(t, fd) else Watched(t, fd))
  {
  }

  lemma DrainOneGone(s: State, fd: int, w: WriteResult)
    requires Peer(s, fd) && Log(s.queues, fd) != [] && Gone(s, fd)
    ensures var t := DrainOne(s, fd, w); t.clients == s.clients && Peer(t, fd) && Gone(t, fd)
  {
  }

  lemma {:induction false} DrainGone(s: State, fd: int, writes: nat -> WriteResult, k: nat)
    requires Peer(s, fd) && Gone(s, fd)
    ensures Gone(Drain(s, fd, writes, k), fd)
    decreases |Log(s.queues, fd)|
  {
    if Log(s.queues, fd) != [] {
      DrainOneGone(s, fd, writes(k));
      DrainOneQueues(s, fd, writes(k));
      DrainGone(DrainOne(s, fd, writes(k)), fd, writes, k + 1);
    }
  }

  lemma FailsSplit(writes: nat -> WriteResult, k: nat, n: nat)
    requires 0 < n
    ensures SomeWriteFails(writes, k, n) <==> writes(k) == Failed || SomeWriteFails(writes, k + 1, n - 1)
  {
  }

  /** A failed write closes the connection, unless it is one to a peer node. */
  lemma {:induction false} DrainWatches(s: State, fd: int, writes: nat -> WriteResult, k: nat)
    requires Peer(s, fd) && Watched(s, fd)
    ensures var t := Drain(s, fd, writes, k);
      if SomeWriteFails(writes, k, |Log(s.queues, fd)|) && fd !in s.clients then Gone(t, fd) else Watched(t, fd)
    decreases |Log(s.queues, fd)|
  {
    if Log(s.queues, fd) != [] {
      var next := DrainOne(s, fd, writes(k));
      DrainOneWatches(s, fd, writes(k));
      DrainOneQueues(s, fd, writes(k));
      FailsSplit(writes, k, |Log(s.queues, fd)|);
      if Watched(next, fd) {
        DrainWatches(next, fd, writes, k + 1);
      } else {
        DrainGone(next, fd, writes, k + 1);
      }
    }
  }

  // ----- the branches

  lemma RmBadFdWatches(s: State, fd: int)
    requires Peer(s, fd) && (Watched(s, fd) || (Gone(s, fd) && fd !in s.clients))
    ensures var t := RmBadFd(s, fd);
      if fd in s.clients then Watched(t, fd) && t.interest[fd] == {OUT, ET} else Gone(t, fd)
  {
  }

  lemma WritableWatches(s: State, ev: Event, writes: nat -> WriteResult)
    requires Peer(s, ev.fd) && Watched(s, ev.fd) && ev.fd in s.queues && ev.events <= {IN, OUT}
    ensures var t := Writable(s, ev, writes);
      if SomeWriteFails(writes, 0, |Log(s.queues, ev.fd)|) && ev.fd !in s.clients then Gone(t, ev.fd)
      else Watched(t, ev.fd) && t.interest[ev.fd] == {IN}
  {
    var drained := Drain(s, ev.fd, writes, 0);
    DrainWatches(s, ev.fd, writes, 0);
    DrainOnlyOn(s, ev.fd, writes, 0);
    assert ev.events - {OUT} + {IN} == {IN};
    if Gone(drained, ev.fd) {
      RmBadFdWatches(drained, ev.fd);
    }
  }

  lemma ReadableWatches(s: State, ev: Event, input: Input, reply: VoteResp)
    requires Peer(s, ev.fd) && Watched(s, ev.fd) && IN in ev.events && ev.events <= {IN, OUT}
    ensures var t := Readable(s, ev, input, reply).0;
      && t.clients == s.clients && Peer(t, ev.fd) && s.queues.Keys <= t.queues.Keys
      && (if input.Broken? && ev.fd !in s.clients then Gone(t, ev.fd)
          else Watched(t, ev.fd) && t.interest[ev.fd]
               == if input.Broken? then {OUT, ET} else if input.Request? then {IN, OUT} else s.interest[ev.fd])
  {
    RmBadFdWatches(s, ev.fd);
    RmBadFdSame(s, ev.fd);
    EpollModSame(s, ev.fd, ev.events + {OUT});
    assert ev.events + {OUT} == {IN, OUT};
  }

  lemma ReadPartWatches(s: State, ev: Event, io: Io)
    requires Peer(s, ev.fd) && Watched(s, ev.fd) && ev.events <= {IN, OUT} && Complete(Flatten(io.chunks))
    ensures var t := ReadPart(s, ev, ReadInput(Flatten(io.chunks), io.end), io.reply).0;
      && t.clients == s.clients && Peer(t, ev.fd) && s.queues.Keys <= t.queues.Keys
      && (if ReadsNothing(ev, io) && ev.fd !in s.clients then Gone(t, ev.fd)
          else Watched(t, ev.fd) && t.interest[ev.fd]
               == if ReadsNothing(ev, io) then {OUT, ET} else if Asks(ev, io) then {IN, OUT} else s.interest[ev.fd])
  {
    if IN in ev.events {
      InputKinds(Flatten(io.chunks), io.end);
      ReadableWatches(s, ev, ReadInput(Flatten(io.chunks), io.end), io.reply);
    }
  }

  // ----- events

  /** Why an event ends a connection that is not one to a peer node. */
  predicate Ends(s: State, ev: Event, io: Io) {
    || Trouble(ev) || ReadsNothing(ev, io)
    || (Writes(ev, io) && SomeWriteFails(io.writes, 0, |Log(s.queues, ev.fd)| + |OwnReply(s, ev, io)|))
  }

  /** What a descriptor that stays is watched for after an event on it. */
  function MaskAfter(s: State, ev: Event, io: Io): Mask
    requires ev.fd in s.interest
  {
    if Trouble(ev) || ReadsNothing(ev, io) then {OUT, ET}
    else if Writes(ev, io) then {IN}
    else if Asks(ev, io) then {IN, OUT}
    else s.interest[ev.fd]
  }

  /** What an event does to its own descriptor. It is closed exactly when it is not one of a peer node and
      the report is about trouble, reading fails or finds the end, or one of the writes fails; otherwise it
      stays open and watched. */
  lemma EventOutcome(s: State, ev: Event, io: Io)
    requires Inv(s) && Reportable(s, ev) && Possible(s, io) && Peer(s, ev.fd)
    ensures var t := Handle(s, ev, io);
      if Ends(s, ev, io) && ev.fd !in s.clients then Gone(t, ev.fd)
      else Watched(t, ev.fd) && t.interest[ev.fd] == MaskAfter(s, ev, io)
  {
    if Trouble(ev) {
      RmBadFdWatches(s, ev.fd);
    } else {
      PeerOutcome(s, ev, io);
    }
  }

  lemma PeerOutcome(s: State, ev: Event, io: Io)
    requires Inv(s) && Reportable(s, ev) && Possible(s, io) && Peer(s, ev.fd) && !Trouble(ev)
    ensures var t := HandlePeer(s, ev, ReadInput(Flatten(io.chunks), io.end), io);
      if Ends(s, ev, io) && ev.fd !in s.clients then Gone(t, ev.fd)
      else Watched(t, ev.fd) && t.interest[ev.fd] == MaskAfter(s, ev, io)
  {
    forall f | f in ev.events
      ensures f in {IN, OUT}
    {
      match f
      case IN =>
      case OUT =>
      case ET =>
      case ERR =>
      case HUP =>
    }
    ReadPartQueue(s, ev, io);
    ReadPartWatches(s, ev, io);
    if Writes(ev, io) {
      WritableWatches(ReadPart(s, ev, ReadInput(Flatten(io.chunks), io.end), io.reply).0, ev, io.writes);
    }
  }

  /** An event that neither reads a message nor gets to the write branch changes nothing but what is open
      and watched. */
  lemma NothingReadNothingElse(s: State, ev: Event, io: Io)
    requires Inv(s) && Reportable(s, ev) && Possible(s, io)
    requires Trouble(ev) || !GoesOn(ev, io) || (IN !in ev.events && !Writes(ev, io)) || !Peer(s, ev.fd)
    ensures Handle(s, ev, io).(open := s.open, interest := s.interest) == s
  {
    InputKinds(Flatten(io.chunks), io.end);
    RmBadFdElsewhere(s, ev.fd);
    AcceptAllElsewhere(s, io.accepted);
  }

  lemma EpollModElsewhere(s: State, fd: int, mask: Mask)
    ensures EpollMod(s, fd, mask).(open := s.open, interest := s.interest) == s
  {
  }

  lemma CloseFdElsewhere(s: State, fd: int)
    ensures CloseFd(s, fd).(open := s.open, interest := s.interest) == s
  {
  }

  lemma RmBadFdElsewhere(s: State, fd: int)
    ensures RmBadFd(s, fd).(open := s.open, interest := s.interest) == s
  {
    if fd == s.listenfd || fd == s.udpfd {
      EpollModElsewhere(s, fd, LISTEN_MASK);
    } else if fd in s.clients {
      EpollModElsewhere(s, fd, CLIENT_MASK);
    } else {
      CloseFdElsewhere(s, fd);
    }
  }

  lemma {:induction false} AcceptAllElsewhere(s: State, fds: seq<int>)
    ensures AcceptAll(s, fds).(open := s.open, interest := s.interest) == s
    decreases |fds|
  {
    if fds != [] {
      AcceptAllElsewhere(s.(interest := s.interest[fds[0] := LISTEN_MASK], open := s.open + {fds[0]}), fds[1..]);
    }
  }

  /** Trouble on an own socket changes nothing at all: it is armed again as it was. */
  lemma OwnSocketTrouble(s: State, ev: Event, io: Io)
    requires Inv(s) && Trouble(ev) && !Peer(s, ev.fd) && Complete(Flatten(io.chunks))
    ensures Handle(s, ev, io) == s
  {
    assert s.interest[ev.fd := LISTEN_MASK] == s.interest;
  }

  /** A datagram changes nothing at all. */
  lemma DatagramChangesNothing(s: State, ev: Event, io: Io)
    requires Inv(s) && ev.fd == s.udpfd && ev.events == {IN} && Complete(Flatten(io.chunks))
    ensures Handle(s, ev, io) == s
  {
  }

  /** Accepting watches every new connection for reading, and nothing else. */
  lemma AcceptOutcome(s: State, ev: Event, io: Io)
    requires Inv(s) && IsAccept(s, ev) && Possible(s, io)
    ensures var t := Handle(s, ev, io);
      && (forall fd :: fd in t.open <==> fd in s.open || fd in io.accepted)
      && (forall fd :: fd in t.interest <==> fd in s.interest || fd in io.accepted)
      && (forall fd :: fd in io.accepted ==> t.interest[fd] == {IN, ET})
      && (forall fd :: fd in s.interest ==> t.interest[fd] == s.interest[fd])
  {
    var t := Handle(s, ev, io);
    AcceptAllInterest(s, io.accepted);
    AcceptAllOpen(s, io.accepted);
    forall fd
      ensures fd in t.interest <==> View(t, fd).1.Some?
      ensures fd in s.interest ==> fd in s.open && fd !in io.accepted && View(s, fd).1.Some?
    {
      NotAccepted(s.open, io.accepted, fd);
    }
  }

  lemma {:induction false} NotAccepted(open: set<int>, fds: seq<int>, fd: int)
    requires Acceptable(open, fds)
    ensures fd in open ==> fd !in fds
    decreases |fds|
  {
    if fds != [] {
      NotAccepted(open + {fds[0]}, fds[1..], fd);
    }
  }

  lemma {:induction false} AcceptAllOpen(s: State, fds: seq<int>)
    ensures forall fd :: fd in AcceptAll(s, fds).open <==> fd in s.open || fd in fds
    decreases |fds|
  {
    if fds != [] {
      AcceptAllOpen(s.(interest := s.interest[fds[0] := LISTEN_MASK], open := s.open + {fds[0]}), fds[1..]);
    }
  }

  /** Registering: the client is recorded, with a queue, in any case; it is open exactly when it is
      connected, and watched for writing exactly when the kernel takes it. */
  lemma RegisterOutcome(s: State, node: int, fd: int, connected: bool, addSucceeds: bool)
    requires Inv(s) && fd !in s.open
    ensures var t := RegisterClient(s, node, fd, connected, addSucceeds);
      && fd in t.clients && t.clients[fd] == (if fd in s.clients then s.clients[fd] else node) && fd in t.queues
      && (fd in t.open <==> connected)
      && (fd in t.interest <==> connected && addSucceeds)
      && (fd in t.interest ==> t.interest[fd] == {OUT, ET})
  {
  }

  // ----- runs

  /** The four ways in which a descriptor can be watched; one that is not of a peer node is always watched
      for reading. */
  predicate MaskOk(s: State, fd: int)
    requires fd in s.interest
  {
    var mask := s.interest[fd];
    || mask == {IN, ET}
    || (Peer(s, fd) && (mask == {IN} || mask == {IN, OUT} || (mask == {OUT, ET} && fd in s.clients)))
  }

  ghost predicate MasksOk(s: State) {
    forall fd :: fd in s.interest ==> MaskOk(s, fd)
  }

  lemma HandleMask(s: State, ev: Event, io: Io, fd: int)
    requires Inv(s) && Reportable(s, ev) && Possible(s, io) && MasksOk(s)
    requires fd in Handle(s, ev, io).interest
    ensures MaskOk(Handle(s, ev, io), fd)
  {
    var t := Handle(s, ev, io);
    HandleInv(s, ev, io);
    HandleKeepsSockets(s, ev, io);
    if !Peer(t, fd) {
    } else if fd == ev.fd {
      EventOutcome(s, ev, io);
    } else if fd in s.open {
      HandleView(s, ev, io, fd);
      assert View(t, fd).1.Some? && fd in s.interest;
    } else if IsAccept(s, ev) {
      AcceptOutcome(s, ev, io);
    } else {
      HandleOpensByAccept(s, ev, io);
      assert false;
    }
  }

  lemma StepMasks(c: Config, step: Step)
    requires ConfigInv(c) && Permitted(c, step) && MasksOk(c.server)
    ensures MasksOk(Next(c, step).server)
  {
    match step
    case Register(node, fd, connected, addSucceeds) =>
      RegisterOutcome(c.server, node, fd, connected, addSucceeds);
    case Wait(events) =>
    case Serve(io) =>
      forall fd | fd in Next(c, step).server.interest
        ensures MaskOk(Next(c, step).server, fd)
      {
        HandleMask(c.server, c.pending[0], io, fd);
      }
  }

  lemma {:induction false} RunMasks(c: Config, steps: seq<Step>)
    requires ConfigInv(c) && RunOk(c, steps) && MasksOk(c.server)
    ensures MasksOk(Run(c, steps).server)
    decreases |steps|
  {
    if steps != [] {
      StepInv(c, steps[0]);
      StepMasks(c, steps[0]);
      RunMasks(Next(c, steps[0]), steps[1..]);
    }
  }

  /** In every reachable state a watched descriptor is watched for reading, or it is one of a peer node and
      watched for writing; no connection is ever left without interest. */
  lemma NobodyIsForgotten(listenfd: int, udpfd: int, steps: seq<Step>, fd: int)
    requires listenfd != udpfd && RunOk(Start(listenfd, udpfd), steps)
    requires fd in Run(Start(listenfd, udpfd), steps).server.interest
    ensures var s := Run(Start(listenfd, udpfd), steps).server;
      && MaskOk(s, fd)
      && (fd !in s.clients ==> IN in s.interest[fd])
      && (IN in s.interest[fd] || OUT in s.interest[fd])
  {
    InitInv(listenfd, udpfd);
    RunMasks(Start(listenfd, udpfd), steps);
  }

  // ----- peer nodes

  /** The descriptor is recorded for this node, open and watched. */
  predicate ClientWatched(s: State, fd: int, node: int) {
    fd in s.clients && s.clients[fd] == node && Watched(s, fd)
  }

  lemma HandleKeepsClient(s: State, ev: Event, io: Io, fd: int, node: int)
    requires Inv(s) && Reportable(s, ev) && Possible(s, io) && ClientWatched(s, fd, node)
    ensures ClientWatched(Handle(s, ev, io), fd, node)
  {
    HandleKeepsSockets(s, ev, io);
    if fd == ev.fd {
      EventOutcome(s, ev, io);
    } else {
      HandleView(s, ev, io, fd);
      assert View(Handle(s, ev, io), fd).1.Some?;
    }
  }

  lemma {:induction false} RunKeepsClient(c: Config, steps: seq<Step>, fd: int, node: int)
    requires ConfigInv(c) && RunOk(c, steps) && ClientWatched(c.server, fd, node)
    ensures ClientWatched(Run(c, steps).server, fd, node)
    decreases |steps|
  {
    if steps != [] {
      StepInv(c, steps[0]);
      if steps[0].Serve? {
        HandleKeepsClient(c.server, c.pending[0], steps[0].io, fd, node);
      }
      RunKeepsClient(Next(c, steps[0]), steps[1..], fd, node);
    }
  }

  /** A peer node that is connected and taken by the kernel is open and watched in every later state,
      whatever errors its connection has; an older registration under the same number keeps the entry. */
  lemma ConnectedClientStays(c: Config, node: int, fd: int, steps: seq<Step>)
    requires ConfigInv(c) && fd !in c.server.open
    requires RunOk(Next(c, Register(node, fd, true, true)), steps)
    ensures var s := Run(Next(c, Register(node, fd, true, true)), steps).server;
      ClientWatched(s, fd, if fd in c.server.clients then c.server.clients[fd] else node)
  {
    var step := Register(node, fd, true, true);
    StepInv(c, step);
    RegisterOutcome(c.server, node, fd, true, true);
    RunKeepsClient(Next(c, step), steps, fd, if fd in c.server.clients then c.server.clients[fd] else node);
  }
}
