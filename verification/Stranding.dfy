/** Responses that wait for a writable event: when they are stranded, and when they get out. */
module Stranding {
  import opened Bytes
  import opened Options
  import opened DataProtocal
  import opened RequestVote
  import opened EpollModel
  import opened EpollInvariant
  import opened EpollRuns

  /** A watched descriptor has responses to send but is not armed for writing: nothing will ever
      send them, unless another request arrives on it. */
  predicate StrandedOn(s: State, fd: int) {
    fd in s.interest && OUT !in s.interest[fd] && Log(s.queues, fd) != []
  }

  ghost predicate NoStranded(s: State) {
    forall fd :: !StrandedOn(s, fd)
  }

  predicate IsAccept(s: State, ev: Event) {
    ev.fd == s.listenfd && IN in ev.events && ERR !in ev.events && HUP !in ev.events
  }

  /** What a caller of accept could check: no accepted descriptor has responses left over from an
      earlier connection with the same number. */
  predicate CleanAccept(s: State, fds: seq<int>) {
    forall i :: 0 <= i < |fds| ==> Log(s.queues, fds[i]) == []
  }

  ghost predicate CleanStep(c: Config, step: Step) {
    step.Serve? && c.pending != [] && IsAccept(c.server, c.pending[0]) ==> CleanAccept(c.server, step.io.accepted)
  }

  lemma {:induction false} AcceptAllInterest(s: State, fds: seq<int>)
    ensures var t := AcceptAll(s, fds);
      && t.queues == s.queues
      && forall fd :: View(t, fd).1 == if fd in fds then Some(LISTEN_MASK) else View(s, fd).1
    decreases |fds|
  {
    if fds != [] {
      AcceptAllInterest(s.(interest := s.interest[fds[0] := LISTEN_MASK], open := s.open + {fds[0]}), fds[1..]);
    }
  }

  lemma AcceptStranding(s: State, fds: seq<int>)
    requires NoStranded(s)
    ensures NoStranded(AcceptAll(s, fds)) <==> CleanAccept(s, fds)
  {
    var t := AcceptAll(s, fds);
    AcceptAllInterest(s, fds);
    forall fd
      ensures StrandedOn(t, fd) <==> fd in fds && Log(s.queues, fd) != []
    {
      assert !StrandedOn(s, fd) && (View(t, fd).1.Some? <==> fd in t.interest);
    }
    if !CleanAccept(s, fds) {
      var i :| 0 <= i < |fds| && Log(s.queues, fds[i]) != [];
      assert StrandedOn(t, fds[i]);
    }
  }

  lemma RmBadFdUnstranded(s: State, fd: int)
    requires Sockets(s) && NoStranded(s)
    ensures NoStranded(RmBadFd(s, fd))
  {
    RmBadFdOnlyOn(s, fd);
    forall f
      ensures !StrandedOn(RmBadFd(s, fd), f)
    {
      assert !StrandedOn(s, f);
      if f != fd {
        assert View(RmBadFd(s, fd), f) == View(s, f);
      }
    }
  }

  lemma ReadableUnstranded(s: State, ev: Event, input: Input, reply: VoteResp)
    requires Sockets(s) && NoStranded(s)
    ensures NoStranded(Readable(s, ev, input, reply).0)
  {
    var t := Readable(s, ev, input, reply).0;
    RmBadFdUnstranded(s, ev.fd);
    ReadableOnlyOn(s, ev, input, reply);
    forall f
      ensures !StrandedOn(t, f)
    {
      assert !StrandedOn(s, f) && !StrandedOn(RmBadFd(s, ev.fd), f);
      if f != ev.fd {
        assert View(t, f) == View(s, f);
      }
    }
  }

  lemma WritableQueues(s: State, ev: Event, writes: nat -> WriteResult)
    ensures Writable(s, ev, writes).queues == if ev.fd in s.queues then s.queues[ev.fd := []] else s.queues
  {
    if ev.fd in s.queues {
      var drained := Drain(s, ev.fd, writes, 0);
      DrainEmpties(s, ev.fd, writes, 0);
      EpollModSame(drained, ev.fd, ev.events - {OUT} + {IN});
      RmBadFdSame(drained, ev.fd);
    }
  }

  lemma WritableUnstranded(s: State, ev: Event, writes: nat -> WriteResult)
    requires NoStranded(s)
    ensures NoStranded(Writable(s, ev, writes))
  {
    var t := Writable(s, ev, writes);
    WritableOnlyOn(s, ev, writes);
    WritableQueues(s, ev, writes);
    forall f
      ensures !StrandedOn(t, f)
    {
      assert !StrandedOn(s, f);
      if f != ev.fd {
        assert View(t, f) == View(s, f);
      }
    }
  }

  /** One step strands a response exactly when it accepts a connection whose descriptor number still
      has one. */
  lemma StepStranding(c: Config, step: Step)
    requires ConfigInv(c) && Permitted(c, step) && NoStranded(c.server)
    ensures NoStranded(Next(c, step).server) <==> CleanStep(c, step)
  {
    var s, t := c.server, Next(c, step).server;
    match step
    case Register(node, fd, connected, addSucceeds) =>
      forall f
        ensures !StrandedOn(t, f)
      {
        assert !StrandedOn(s, f);
      }
    case Wait(events) =>
    case Serve(io) =>
      var ev := c.pending[0];
      RmBadFdUnstranded(s, ev.fd);
      AcceptStranding(s, io.accepted);
      var input := ReadInput(Flatten(io.chunks), io.end);
      ReadableUnstranded(s, ev, input, io.reply);
      var read := if IN in ev.events then Readable(s, ev, input, io.reply).0 else s;
      WritableUnstranded(read, ev, io.writes);
  }

  /** In all states of a run, the first and the last one included, no response is stranded. */
  ghost predicate NeverStranded(c: Config, steps: seq<Step>)
    requires RunOk(c, steps)
    decreases |steps|
  {
    NoStranded(c.server) && (steps == [] || NeverStranded(Next(c, steps[0]), steps[1..]))
  }

  ghost predicate CleanRun(c: Config, steps: seq<Step>)
    requires RunOk(c, steps)
    decreases |steps|
  {
    steps == [] || (CleanStep(c, steps[0]) && CleanRun(Next(c, steps[0]), steps[1..]))
  }

  /** A run never strands a response if and only if all its accepts are clean. */
  lemma {:induction false} NeverStrandedIffClean(c: Config, steps: seq<Step>)
    requires ConfigInv(c) && NoStranded(c.server) && RunOk(c, steps)
    ensures NeverStranded(c, steps) <==> CleanRun(c, steps)
    decreases |steps|
  {
    if steps != [] {
      var next := Next(c, steps[0]);
      StepInv(c, steps[0]);
      StepStranding(c, steps[0]);
      if CleanStep(c, steps[0]) {
        NeverStrandedIffClean(next, steps[1..]);
      }
    }
  }

  /** Only an accept opens descriptors. */
  lemma HandleOpensByAccept(s: State, ev: Event, io: Io)
    requires Inv(s) && Reportable(s, ev) && Possible(s, io) && !IsAccept(s, ev)
    ensures Handle(s, ev, io).open <= s.open
  {
    var input := ReadInput(Flatten(io.chunks), io.end);
    var read := ReadPart(s, ev, input, io.reply).0;
    RmBadFdOnlyOn(s, ev.fd);
    ReadableOnlyOn(s, ev, input, io.reply);
    WritableOnlyOn(read, ev, io.writes);
    forall fd | fd in Handle(s, ev, io).open
      ensures fd in s.open
    {
      if fd != ev.fd {
        assert View(Handle(s, ev, io), fd).0 == View(s, fd).0;
      }
    }
  }

  // ----- the same for runs that never use a descriptor number twice

  /** Every descriptor that a step opens has a number that was never open before. */
  ghost predicate NoReuse(c: Config, steps: seq<Step>, seen: set<int>)
    requires RunOk(c, steps)
    decreases |steps|
  {
    steps == [] || (
      var next := Next(c, steps[0]);
      && (next.server.open - c.server.open) !! seen
      && NoReuse(next, steps[1..], seen + next.server.open))
  }

  /** Responses wait only on numbers that have been open. */
  ghost predicate QueuedSeen(s: State, seen: set<int>) {
    s.open <= seen && forall fd :: Log(s.queues, fd) != [] ==> fd in seen
  }

  lemma ReadPartQueues(s: State, ev: Event, input: Input, reply: VoteResp, fd: int)
    requires fd != ev.fd
    ensures Log(ReadPart(s, ev, input, reply).0.queues, fd) == Log(s.queues, fd)
  {
    RmBadFdSame(s, ev.fd);
    EpollModSame(s, ev.fd, ev.events + {OUT});
  }

  lemma HandlePeerQueues(s: State, ev: Event, input: Input, io: Io, fd: int)
    requires fd != ev.fd
    ensures Log(HandlePeer(s, ev, input, io).queues, fd) == Log(s.queues, fd)
  {
    ReadPartQueues(s, ev, input, io.reply, fd);
    WritableQueues(ReadPart(s, ev, input, io.reply).0, ev, io.writes);
  }

  /** An event puts responses on no other descriptor. */
  lemma HandleQueues(s: State, ev: Event, io: Io, fd: int)
    requires Possible(s, io) && fd != ev.fd
    ensures Log(Handle(s, ev, io).queues, fd) == Log(s.queues, fd)
  {
    RmBadFdSame(s, ev.fd);
    AcceptAllInterest(s, io.accepted);
    HandlePeerQueues(s, ev, ReadInput(Flatten(io.chunks), io.end), io, fd);
  }

  lemma StepQueuedSeen(c: Config, step: Step, seen: set<int>)
    requires ConfigInv(c) && Permitted(c, step) && QueuedSeen(c.server, seen)
    ensures var next := Next(c, step).server; QueuedSeen(next, seen + next.open)
  {
    var next := Next(c, step).server;
    forall fd | Log(next.queues, fd) != []
      ensures fd in seen
    {
      if step.Serve? && fd != c.pending[0].fd {
        HandleQueues(c.server, c.pending[0], step.io, fd);
      } else if step.Serve? {
        assert Reportable(c.server, c.pending[0]);
      } else {
        assert Log(c.server.queues, fd) != [];
      }
    }
  }

  lemma {:induction false} AcceptAllOpens(s: State, fds: seq<int>, i: nat)
    requires Acceptable(s.open, fds) && i < |fds|
    ensures fds[i] !in s.open && fds[i] in AcceptAll(s, fds).open && s.open <= AcceptAll(s, fds).open
    decreases |fds|
  {
    var first := s.(interest := s.interest[fds[0] := LISTEN_MASK], open := s.open + {fds[0]});
    if i != 0 {
      AcceptAllOpens(first, fds[1..], i - 1);
    } else if |fds| > 1 {
      AcceptAllOpens(first, fds[1..], 0);
    }
  }

  lemma StepIsClean(c: Config, step: Step, seen: set<int>)
    requires ConfigInv(c) && Permitted(c, step) && QueuedSeen(c.server, seen)
    requires (Next(c, step).server.open - c.server.open) !! seen
    ensures CleanStep(c, step)
  {
    if step.Serve? && IsAccept(c.server, c.pending[0]) {
      var s, fds := c.server, step.io.accepted;
      forall i | 0 <= i < |fds|
        ensures Log(s.queues, fds[i]) == []
      {
        AcceptAllOpens(s, fds, i);
        assert fds[i] in Next(c, step).server.open - s.open;
      }
    }
  }

  /** Without reuse of descriptor numbers no run ever strands a response. */
  lemma {:induction false} NoReuseNeverStrands(c: Config, steps: seq<Step>, seen: set<int>)
    requires ConfigInv(c) && NoStranded(c.server) && QueuedSeen(c.server, seen)
    requires RunOk(c, steps) && NoReuse(c, steps, seen)
    ensures NeverStranded(c, steps)
    decreases |steps|
  {
    if steps != [] {
      var next := Next(c, steps[0]);
      StepInv(c, steps[0]);
      StepIsClean(c, steps[0], seen);
      StepStranding(c, steps[0]);
      StepQueuedSeen(c, steps[0], seen);
      NoReuseNeverStrands(next, steps[1..], seen + next.server.open);
    }
  }

  /** ... in particular no run from the constructed server does. */
  lemma ServerWithoutReuse(listenfd: int, udpfd: int, steps: seq<Step>)
    requires listenfd != udpfd && RunOk(Start(listenfd, udpfd), steps)
    requires NoReuse(Start(listenfd, udpfd), steps, {listenfd, udpfd})
    ensures NeverStranded(Start(listenfd, udpfd), steps)
  {
    InitInv(listenfd, udpfd);
    assert forall fd :: Log(Init(listenfd, udpfd).queues, fd) == [];
    NoReuseNeverStrands(Start(listenfd, udpfd), steps, {listenfd, udpfd});
  }

  // ----- what is armed gets out

  lemma WritableTakes(s: State, ev: Event, writes: nat -> WriteResult)
    requires ev.fd in s.queues
    ensures Log(Writable(s, ev, writes).taken, ev.fd) == Log(s.taken, ev.fd) + Log(s.queues, ev.fd)
  {
    var drained := Drain(s, ev.fd, writes, 0);
    DrainTakes(s, ev.fd, writes, 0);
    EpollModSame(drained, ev.fd, ev.events - {OUT} + {IN});
    RmBadFdSame(drained, ev.fd);
  }

  /** The read branch lets the write branch have its turn: there is nothing to read, or what is read is
      neither a failure nor shorter than the smallest vote message. */
  predicate GoesOn(ev: Event, io: Io) {
    IN in ev.events ==> io.end != ReadFailed && 27 <= |Flatten(io.chunks)|
  }

  /** The event brings a vote request. */
  predicate Asks(ev: Event, io: Io) {
    IN in ev.events && GoesOn(ev, io) && Flatten(io.chunks)[0] == 1
  }

  /** The response to what this event brings. */
  function OwnReply(s: State, ev: Event, io: Io): seq<Cell> {
    if Asks(ev, io) then [Cell(s.mallocs, io.reply)] else []
  }

  /** What is made of the bytes of an event, told from the bytes. */
  lemma InputKinds(message: seq<byte>, end: ReadEnd)
    requires Complete(message)
    ensures var input, failed := ReadInput(message, end), end == ReadFailed || message == [];
      && (input.Broken? <==> failed)
      && (input.Short? <==> !failed && |message| < 27)
      && (input.Request? <==> !failed && 27 <= |message| && message[0] == 1)
      && (input.Response? <==> !failed && 27 <= |message| && message[0] == 2)
  {
  }

  lemma ReadPartByInput(s: State, ev: Event, input: Input, reply: VoteResp)
    requires Inv(s) && Reportable(s, ev)
    ensures var (t, goOn) := ReadPart(s, ev, input, reply);
      && (goOn <==> (IN in ev.events ==> !input.Broken? && !input.Short?))
      && t.taken == s.taken
      && Log(t.queues, ev.fd) == Log(s.queues, ev.fd)
         + (if IN in ev.events && input.Request? then [Cell(s.mallocs, reply)] else [])
  {
    RmBadFdSame(s, ev.fd);
    EpollModSame(s, ev.fd, ev.events + {OUT});
  }

  lemma ReadPartQueue(s: State, ev: Event, io: Io)
    requires Inv(s) && Reportable(s, ev) && Complete(Flatten(io.chunks))
    ensures var (t, goOn) := ReadPart(s, ev, ReadInput(Flatten(io.chunks), io.end), io.reply);
      && (goOn <==> GoesOn(ev, io))
      && t.taken == s.taken
      && Log(t.queues, ev.fd) == Log(s.queues, ev.fd) + OwnReply(s, ev, io)
  {
    InputKinds(Flatten(io.chunks), io.end);
    ReadPartByInput(s, ev, ReadInput(Flatten(io.chunks), io.end), io.reply);
  }

  /** A writable event on a descriptor with waiting responses sends them, and behind them the response to
      a request that comes with the same event, exactly when it has nothing to read or what it reads is
      neither a failure nor short. Otherwise it leaves them all where they are. */
  lemma DrainedIffReadGoesOn(s: State, ev: Event, io: Io)
    requires Inv(s) && Reportable(s, ev) && Possible(s, io) && Log(s.queues, ev.fd) != []
    requires OUT in ev.events && ERR !in ev.events && HUP !in ev.events
    ensures var t := Handle(s, ev, io);
      && (Log(t.queues, ev.fd) == [] <==> GoesOn(ev, io))
      && Log(t.queues, ev.fd) == (if GoesOn(ev, io) then [] else Log(s.queues, ev.fd))
      && Log(t.taken, ev.fd) == Log(s.taken, ev.fd)
         + (if GoesOn(ev, io) then Log(s.queues, ev.fd) + OwnReply(s, ev, io) else [])
  {
    PeerDrainedIffReadGoesOn(s, ev, io);
  }

  lemma PeerDrainedIffReadGoesOn(s: State, ev: Event, io: Io)
    requires Inv(s) && Reportable(s, ev) && Complete(Flatten(io.chunks))
    requires Log(s.queues, ev.fd) != [] && OUT in ev.events
    ensures var t := HandlePeer(s, ev, ReadInput(Flatten(io.chunks), io.end), io);
      && Log(t.queues, ev.fd) == (if GoesOn(ev, io) then [] else Log(s.queues, ev.fd))
      && Log(t.taken, ev.fd) == Log(s.taken, ev.fd)
         + (if GoesOn(ev, io) then Log(s.queues, ev.fd) + OwnReply(s, ev, io) else [])
  {
    ReadPartQueue(s, ev, io);
    var read := ReadPart(s, ev, ReadInput(Flatten(io.chunks), io.end), io.reply).0;
    if GoesOn(ev, io) {
      WritableQueues(read, ev, io.writes);
      WritableTakes(read, ev, io.writes);
    } else {
      assert OwnReply(s, ev, io) == [];
    }
  }

  /** With nothing stranded, waiting responses are armed, so that such an event can be reported. */
  lemma WaitingIsArmed(s: State, fd: int)
    requires NoStranded(s) && fd in s.interest && Log(s.queues, fd) != []
    ensures Reportable(s, Event(fd, {OUT}))
  {
    assert !StrandedOn(s, fd);
  }

  // ----- concrete runs

  lemma FlattenOne(message: seq<byte>)
    ensures Flatten([message]) == message && Flatten([]) == []
  {
  }

  const QUIET: nat -> WriteResult := k => Again

  /** Descriptor 7 has been accepted ... */
  function AfterAccept(): State {
    Init(3, 4).(interest := map[3 := LISTEN_MASK, 4 := LISTEN_MASK, 7 := LISTEN_MASK], open := {3, 4, 7})
  }

  /** ... it has asked for a vote ... */
  function AfterRequest(request: VoteReq, reply: VoteResp): State {
    var s := AfterAccept();
    PutResp(s.(interest := s.interest[7 := {IN, OUT}], requests := [request]), 7, reply)
  }

  /** ... and it has hung up before it was written to. It is closed, its response stays in the map. */
  function AfterHangUp(request: VoteReq, reply: VoteResp): State {
    CloseFd(AfterRequest(request, reply), 7)
  }

  lemma AcceptSeven(reply: VoteResp)
    ensures Handle(Init(3, 4), Event(3, {IN}), Io([7], [], [], WouldBlock, reply, QUIET)) == AfterAccept()
  {
  }

  lemma AskSeven(request: VoteReq, reply: VoteResp)
    ensures Flatten([ReqFrame(request)]) == ReqFrame(request)
    ensures Handle(AfterAccept(), Event(7, {IN}), Io([], [], [ReqFrame(request)], WouldBlock, reply, QUIET))
            == AfterRequest(request, reply)
  {
    FlattenOne(ReqFrame(request));
    UnframeOfFrame(REQUEST_VOTE_REQUEST, EncodeVoteReq(request), []);
    assert ReqFrame(request) + [] == ReqFrame(request);
    VoteReqRoundTrip(request, []);
    assert EncodeVoteReq(request) + [] == EncodeVoteReq(request);
    assert ReadInput(ReqFrame(request), WouldBlock) == Request(request);
    assert {IN} + {OUT} == {IN, OUT};
  }

  /** The response waits, and the descriptor is watched for reading and writing. */
  lemma RequestQueued(request: VoteReq, reply: VoteResp) returns (steps: seq<Step>)
    ensures RunOk(Start(3, 4), steps)
    ensures Run(Start(3, 4), steps) == Config(AfterRequest(request, reply), [])
  {
    var nothing := Io([], [], [], WouldBlock, reply, QUIET);
    FlattenOne([]);
    AcceptSeven(reply);
    steps := WaitAndServe(Start(3, 4), [], Event(3, {IN}), nothing.(accepted := [7]));
    AskSeven(request, reply);
    steps := WaitAndServe(Start(3, 4), steps, Event(7, {IN}), nothing.(chunks := [ReqFrame(request)]));
  }

  /** In this state a short read holds the response back although the descriptor is writable. */
  lemma ShortReadHoldsResponseBack(request: VoteReq, reply: VoteResp, io: Io) returns (steps: seq<Step>)
    requires Possible(AfterRequest(request, reply), io) && io.end != ReadFailed
    requires 0 < |Flatten(io.chunks)| < VOTE_RESP_SIZE
    ensures RunOk(Start(3, 4), steps) && Run(Start(3, 4), steps) == Config(AfterRequest(request, reply), [])
    ensures var s, ev := AfterRequest(request, reply), Event(7, {IN, OUT});
      Reportable(s, ev) && s.queues[7] == [Cell(0, reply)] && Handle(s, ev, io) == s
  {
    steps := RequestQueued(request, reply);
  }

  lemma HangUpLeavesResponse(request: VoteReq, reply: VoteResp) returns (steps: seq<Step>)
    ensures RunOk(Start(3, 4), steps)
    ensures Run(Start(3, 4), steps) == Config(AfterHangUp(request, reply), [])
  {
    FlattenOne([]);
    steps := RequestQueued(request, reply);
    steps := WaitAndServe(Start(3, 4), steps, Event(7, {HUP}), Io([], [], [], WouldBlock, reply, QUIET));
  }

  /** A run that strands a response: the number 7 is given to the next connection, which is watched
      for reading only and inherits the response. */
  lemma ReusedDescriptorStrands(request: VoteReq, reply: VoteResp) returns (steps: seq<Step>)
    ensures RunOk(Start(3, 4), steps)
    ensures var s := Run(Start(3, 4), steps).server;
      && StrandedOn(s, 7) && s.interest[7] == LISTEN_MASK && s.queues[7] == [Cell(0, reply)]
      && Run(Start(3, 4), steps).pending == [] && Log(s.taken, 7) == [] && s.mallocs == 1
  {
    FlattenOne([]);
    steps := HangUpLeavesResponse(request, reply);
    steps := WaitAndServe(Start(3, 4), steps, Event(3, {IN}), Io([7], [], [], WouldBlock, reply, QUIET));
  }
}
