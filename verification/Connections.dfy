/** Descriptor numbers come back, and a queue outlives its connection: which connection a response is
    sent to. */
module Connections {
  import opened RequestVote
  import opened EpollModel
  import opened EpollInvariant
  import opened EpollRuns
  import opened Stranding
  import opened VoteDelivery

  /** A run with, for every descriptor, the number of responses that had been enqueued on it when its
      present connection was opened. */
  datatype Traced = Traced(config: Config, since: map<int, nat>)

  function Since(t: Traced, fd: int): nat {
    if fd in t.since then t.since[fd] else 0
  }

  /** The descriptors that a step opens. */
  ghost function Opened(c: Config, step: Step): set<int>
    requires Permitted(c, step)
  {
    Next(c, step).server.open - c.server.open
  }

  ghost function TracedNext(t: Traced, step: Step): Traced
    requires Permitted(t.config, step)
  {
    var added := Opened(t.config, step);
    Traced(Next(t.config, step),
           map fd | fd in t.since.Keys + added ::
             if fd in added then |Log(t.config.server.enqueued, fd)| else t.since[fd])
  }

  /** The next response to be taken on fd was enqueued for an earlier connection. */
  predicate ForeignOn(t: Traced, fd: int) {
    |Log(t.config.server.taken, fd)| < Since(t, fd)
  }

  ghost predicate NoForeign(t: Traced) {
    forall fd :: !ForeignOn(t, fd)
  }

  /** What could be checked when a descriptor is opened: no response is left in its queue. */
  ghost predicate CleanOpens(c: Config, step: Step)
    requires Permitted(c, step)
  {
    forall fd :: fd in Opened(c, step) ==> Log(c.server.queues, fd) == []
  }

  /** Every response that the step takes was enqueued on the connection it is now sent to. */
  ghost predicate TakesOwn(t: Traced, step: Step)
    requires Permitted(t.config, step)
  {
    forall fd, i :: |Log(t.config.server.taken, fd)| <= i < |Log(Next(t.config, step).server.taken, fd)| ==>
      IsOwn(t, fd, i)
  }

  /** The i-th response taken on fd is one that was enqueued on the present connection. */
  predicate IsOwn(t: Traced, fd: int, i: int) {
    Since(t, fd) <= i
  }

  /** The step gets to the write branch of a peer connection. This can be told before the step, from the
      event and from what there is to read. */
  ghost predicate Sends(c: Config, step: Step)
    requires Permitted(c, step)
  {
    step.Serve? && (
      var ev := c.pending[0];
      && OUT in ev.events && ERR !in ev.events && HUP !in ev.events
      && GoesOn(ev, step.io))
  }

  /** ... with a response of an earlier connection in front of the queue. */
  ghost predicate SendsForeign(t: Traced, step: Step)
    requires Permitted(t.config, step)
  {
    Sends(t.config, step) && ForeignOn(t, t.config.pending[0].fd)
  }

  /** A connection cannot have been opened after more responses than there have been. */
  ghost predicate SinceOk(t: Traced) {
    forall fd :: Since(t, fd) <= |Log(t.config.server.enqueued, fd)|
  }

  // ----- what a step takes and enqueues

  lemma {:induction false} DrainTakesMore(s: State, fd: int, writes: nat -> WriteResult, k: nat, f: int)
    ensures Log(s.taken, f) <= Log(Drain(s, fd, writes, k).taken, f)
    decreases |Log(s.queues, fd)|
  {
    if Log(s.queues, fd) != [] {
      var next, c := DrainOne(s, fd, writes(k)), s.queues[fd][0];
      DrainOneTaken(s, fd, writes(k));
      LogOfExtend(s.taken, fd, [c], f);
      DrainOneQueues(s, fd, writes(k));
      DrainTakesMore(next, fd, writes, k + 1, f);
    }
  }

  lemma DrainOneTaken(s: State, fd: int, w: WriteResult)
    requires Log(s.queues, fd) != []
    ensures DrainOne(s, fd, w).taken == Extend(s.taken, fd, [s.queues[fd][0]])
  {
    RmBadFdSame(Sent(s, fd, AcceptedBytes(if fd in s.open then w else Failed)), fd);
  }

  lemma WritableTakesMore(s: State, ev: Event, writes: nat -> WriteResult, f: int)
    ensures Log(s.taken, f) <= Log(Writable(s, ev, writes).taken, f)
  {
    if ev.fd in s.queues {
      var drained := Drain(s, ev.fd, writes, 0);
      DrainTakesMore(s, ev.fd, writes, 0, f);
      EpollModSame(drained, ev.fd, ev.events - {OUT} + {IN});
      RmBadFdSame(drained, ev.fd);
    }
  }

  lemma {:induction false} DrainTakesOnlyOn(s: State, fd: int, writes: nat -> WriteResult, k: nat, f: int)
    requires f != fd
    ensures Log(Drain(s, fd, writes, k).taken, f) == Log(s.taken, f)
    decreases |Log(s.queues, fd)|
  {
    if Log(s.queues, fd) != [] {
      var next, c := DrainOne(s, fd, writes(k)), s.queues[fd][0];
      DrainOneTaken(s, fd, writes(k));
      LogOfExtend(s.taken, fd, [c], f);
      DrainOneQueues(s, fd, writes(k));
      DrainTakesOnlyOn(next, fd, writes, k + 1, f);
    }
  }

  lemma WritableTakesOnlyOn(s: State, ev: Event, writes: nat -> WriteResult, f: int)
    requires f != ev.fd
    ensures Log(Writable(s, ev, writes).taken, f) == Log(s.taken, f)
  {
    if ev.fd in s.queues {
      var drained := Drain(s, ev.fd, writes, 0);
      DrainTakesOnlyOn(s, ev.fd, writes, 0, f);
      EpollModSame(drained, ev.fd, ev.events - {OUT} + {IN});
      RmBadFdSame(drained, ev.fd);
    }
  }

  lemma DrainOneKeepsEnqueued(s: State, fd: int, w: WriteResult)
    requires Log(s.queues, fd) != []
    ensures DrainOne(s, fd, w).enqueued == s.enqueued
  {
    RmBadFdSame(Sent(s, fd, AcceptedBytes(if fd in s.open then w else Failed)), fd);
  }

  lemma {:induction false} DrainKeepsEnqueued(s: State, fd: int, writes: nat -> WriteResult, k: nat)
    ensures Drain(s, fd, writes, k).enqueued == s.enqueued
    decreases |Log(s.queues, fd)|
  {
    if Log(s.queues, fd) != [] {
      DrainOneKeepsEnqueued(s, fd, writes(k));
      DrainOneQueues(s, fd, writes(k));
      DrainKeepsEnqueued(DrainOne(s, fd, writes(k)), fd, writes, k + 1);
    }
  }

  lemma WritableKeepsEnqueued(s: State, ev: Event, writes: nat -> WriteResult)
    ensures Writable(s, ev, writes).enqueued == s.enqueued
  {
    if ev.fd in s.queues {
      var drained := Drain(s, ev.fd, writes, 0);
      DrainKeepsEnqueued(s, ev.fd, writes, 0);
      EpollModSame(drained, ev.fd, ev.events - {OUT} + {IN});
      RmBadFdSame(drained, ev.fd);
    }
  }

  lemma ReadPartEnqueues(s: State, ev: Event, input: Input, reply: VoteResp, f: int)
    ensures Log(s.enqueued, f) <= Log(ReadPart(s, ev, input, reply).0.enqueued, f)
  {
    RmBadFdSame(s, ev.fd);
    EpollModSame(s, ev.fd, ev.events + {OUT});
    LogOfExtend(s.enqueued, ev.fd, [Cell(s.mallocs, reply)], f);
  }

  lemma ReadPartTaken(s: State, ev: Event, input: Input, reply: VoteResp)
    ensures ReadPart(s, ev, input, reply).0.taken == s.taken
  {
    RmBadFdSame(s, ev.fd);
    EpollModSame(s, ev.fd, ev.events + {OUT});
  }

  lemma {:induction false} AcceptAllTaken(s: State, fds: seq<int>)
    ensures AcceptAll(s, fds).taken == s.taken && AcceptAll(s, fds).enqueued == s.enqueued
    decreases |fds|
  {
    if fds != [] {
      AcceptAllTaken(s.(interest := s.interest[fds[0] := LISTEN_MASK], open := s.open + {fds[0]}), fds[1..]);
    }
  }

  lemma HandleTakesMore(s: State, ev: Event, io: Io, f: int)
    requires Complete(Flatten(io.chunks))
    ensures Log(s.taken, f) <= Log(Handle(s, ev, io).taken, f)
    ensures IsAccept(s, ev) ==> Handle(s, ev, io).taken == s.taken
  {
    var input := ReadInput(Flatten(io.chunks), io.end);
    RmBadFdSame(s, ev.fd);
    AcceptAllTaken(s, io.accepted);
    ReadPartTaken(s, ev, input, io.reply);
    WritableTakesMore(ReadPart(s, ev, input, io.reply).0, ev, io.writes, f);
  }

  lemma HandleEnqueuesMore(s: State, ev: Event, io: Io, f: int)
    requires Complete(Flatten(io.chunks))
    ensures Log(s.enqueued, f) <= Log(Handle(s, ev, io).enqueued, f)
  {
    var input := ReadInput(Flatten(io.chunks), io.end);
    RmBadFdSame(s, ev.fd);
    AcceptAllTaken(s, io.accepted);
    ReadPartEnqueues(s, ev, input, io.reply, f);
    WritableKeepsEnqueued(ReadPart(s, ev, input, io.reply).0, ev, io.writes);
  }

  /** Without getting to the write branch an event takes nothing, and there it takes only on its own
      descriptor. */
  lemma HandleTakesOnlyOn(s: State, ev: Event, io: Io, f: int)
    requires Inv(s) && Reportable(s, ev) && Complete(Flatten(io.chunks))
    requires f == ev.fd ==>
      !(OUT in ev.events && ERR !in ev.events && HUP !in ev.events && GoesOn(ev, io))
    ensures Log(Handle(s, ev, io).taken, f) == Log(s.taken, f)
  {
    var input := ReadInput(Flatten(io.chunks), io.end);
    RmBadFdSame(s, ev.fd);
    AcceptAllTaken(s, io.accepted);
    ReadPartTaken(s, ev, input, io.reply);
    ReadPartQueue(s, ev, io);
    if f != ev.fd {
      WritableTakesOnlyOn(ReadPart(s, ev, input, io.reply).0, ev, io.writes, f);
    }
  }

  lemma StepTakesMore(c: Config, step: Step, f: int)
    requires ConfigInv(c) && Permitted(c, step)
    ensures Log(c.server.taken, f) <= Log(Next(c, step).server.taken, f)
    ensures f in Opened(c, step) ==> Log(Next(c, step).server.taken, f) == Log(c.server.taken, f)
  {
    if step.Serve? {
      HandleTakesMore(c.server, c.pending[0], step.io, f);
      if !IsAccept(c.server, c.pending[0]) {
        HandleOpensByAccept(c.server, c.pending[0], step.io);
      }
    }
  }

  // ----- steps and runs

  /** A step leaves a response of an earlier connection in front of a queue if and only if it opens a
      descriptor that still has responses. */
  lemma StepForeign(t: Traced, step: Step)
    requires ConfigInv(t.config) && Permitted(t.config, step) && NoForeign(t)
    ensures NoForeign(TracedNext(t, step)) <==> CleanOpens(t.config, step)
  {
    var s, u := t.config.server, TracedNext(t, step);
    forall fd
      ensures ForeignOn(u, fd) <==> fd in Opened(t.config, step) && Log(s.queues, fd) != []
    {
      StepTakesMore(t.config, step, fd);
      assert !ForeignOn(t, fd);
      assert Log(s.enqueued, fd) == Log(s.taken, fd) + Log(s.queues, fd);
    }
  }

  /** A step sends a response to a connection it was not enqueued on if and only if it gets to the write
      branch while such a response is in front. */
  lemma TakesOwnIffNoForeignSend(t: Traced, step: Step)
    requires ConfigInv(t.config) && Permitted(t.config, step) && SinceOk(t)
    ensures TakesOwn(t, step) <==> !SendsForeign(t, step)
  {
    if SendsForeign(t, step) {
      ForeignSendTakesForeign(t, step);
    } else {
      forall fd, i | |Log(t.config.server.taken, fd)| <= i < |Log(Next(t.config, step).server.taken, fd)|
        ensures IsOwn(t, fd, i)
      {
        if step.Serve? && !(Sends(t.config, step) && fd == t.config.pending[0].fd) {
          HandleTakesOnlyOn(t.config.server, t.config.pending[0], step.io, fd);
        }
        assert !ForeignOn(t, fd);
      }
    }
  }

  lemma ForeignSendTakesForeign(t: Traced, step: Step)
    requires ConfigInv(t.config) && Permitted(t.config, step) && SinceOk(t) && SendsForeign(t, step)
    ensures !TakesOwn(t, step)
  {
    var s, ev := t.config.server, t.config.pending[0];
    assert Since(t, ev.fd) <= |Log(s.enqueued, ev.fd)|;
    assert Log(s.enqueued, ev.fd) == Log(s.taken, ev.fd) + Log(s.queues, ev.fd);
    DrainedIffReadGoesOn(s, ev, step.io);
    assert !IsOwn(t, ev.fd, |Log(s.taken, ev.fd)|);
  }

  lemma StepSinceOk(t: Traced, step: Step)
    requires ConfigInv(t.config) && Permitted(t.config, step) && SinceOk(t)
    ensures SinceOk(TracedNext(t, step))
  {
    forall fd
      ensures Since(TracedNext(t, step), fd) <= |Log(Next(t.config, step).server.enqueued, fd)|
    {
      assert Since(t, fd) <= |Log(t.config.server.enqueued, fd)|;
      if step.Serve? {
        HandleEnqueuesMore(t.config.server, t.config.pending[0], step.io, fd);
      }
    }
  }

  ghost predicate NeverForeign(t: Traced, steps: seq<Step>)
    requires RunOk(t.config, steps)
    decreases |steps|
  {
    NoForeign(t) && (steps == [] || NeverForeign(TracedNext(t, steps[0]), steps[1..]))
  }

  ghost predicate AlwaysCleanOpens(c: Config, steps: seq<Step>)
    requires RunOk(c, steps)
    decreases |steps|
  {
    steps == [] || (CleanOpens(c, steps[0]) && AlwaysCleanOpens(Next(c, steps[0]), steps[1..]))
  }

  ghost predicate AlwaysTakesOwn(t: Traced, steps: seq<Step>)
    requires RunOk(t.config, steps)
    decreases |steps|
  {
    steps == [] || (TakesOwn(t, steps[0]) && AlwaysTakesOwn(TracedNext(t, steps[0]), steps[1..]))
  }

  ghost predicate NeverSendsForeign(t: Traced, steps: seq<Step>)
    requires RunOk(t.config, steps)
    decreases |steps|
  {
    steps == [] || (!SendsForeign(t, steps[0]) && NeverSendsForeign(TracedNext(t, steps[0]), steps[1..]))
  }

  /** Over a run, every response is sent to the connection it was enqueued on if and only if the write
      branch is never entered with a response of an earlier connection in front. */
  lemma {:induction false} OwnResponsesIffNoForeignSend(t: Traced, steps: seq<Step>)
    requires ConfigInv(t.config) && SinceOk(t) && RunOk(t.config, steps)
    ensures AlwaysTakesOwn(t, steps) <==> NeverSendsForeign(t, steps)
    decreases |steps|
  {
    if steps != [] {
      StepInv(t.config, steps[0]);
      StepSinceOk(t, steps[0]);
      TakesOwnIffNoForeignSend(t, steps[0]);
      OwnResponsesIffNoForeignSend(TracedNext(t, steps[0]), steps[1..]);
    }
  }

  /** Such a response never gets to the front if and only if no descriptor, accepted or registered, is
      opened while its number still has responses; and then every response is sent to the connection it
      was enqueued on. */
  lemma {:induction false} NeverForeignIffCleanOpens(t: Traced, steps: seq<Step>)
    requires ConfigInv(t.config) && NoForeign(t) && SinceOk(t) && RunOk(t.config, steps)
    ensures NeverForeign(t, steps) <==> AlwaysCleanOpens(t.config, steps)
    ensures AlwaysCleanOpens(t.config, steps) ==> AlwaysTakesOwn(t, steps)
    decreases |steps|
  {
    if steps != [] {
      StepInv(t.config, steps[0]);
      StepForeign(t, steps[0]);
      StepSinceOk(t, steps[0]);
      TakesOwnIffNoForeignSend(t, steps[0]);
      if CleanOpens(t.config, steps[0]) {
        NeverForeignIffCleanOpens(TracedNext(t, steps[0]), steps[1..]);
      }
    }
  }

  // ----- a run in which it happens

  ghost function TracedRun(t: Traced, steps: seq<Step>): Traced
    requires RunOk(t.config, steps)
    decreases |steps|
  {
    if steps == [] then t else TracedRun(TracedNext(t, steps[0]), steps[1..])
  }

  lemma {:induction false} TracedConfig(t: Traced, steps: seq<Step>)
    requires RunOk(t.config, steps)
    ensures TracedRun(t, steps).config == Run(t.config, steps)
    decreases |steps|
  {
    if steps != [] {
      TracedConfig(TracedNext(t, steps[0]), steps[1..]);
    }
  }

  /** Two runs, one after the other. */
  lemma {:induction false} Joined(t: Traced, a: seq<Step>, b: seq<Step>)
    requires RunOk(t.config, a) && RunOk(TracedRun(t, a).config, b)
    ensures RunOk(t.config, a + b) && TracedRun(t, a + b) == TracedRun(TracedRun(t, a), b)
    decreases |a|
  {
    if a == [] {
      assert a + b == b;
    } else {
      assert (a + b)[1..] == a[1..] + b;
      Joined(TracedNext(t, a[0]), a[1..], b);
    }
  }

  lemma {:induction false} JoinedTakesOwn(t: Traced, a: seq<Step>, b: seq<Step>)
    requires RunOk(t.config, a) && RunOk(TracedRun(t, a).config, b) && RunOk(t.config, a + b)
    ensures AlwaysTakesOwn(t, a + b) <==> AlwaysTakesOwn(t, a) && AlwaysTakesOwn(TracedRun(t, a), b)
    decreases |a|
  {
    if a == [] {
      assert a + b == b;
    } else {
      assert (a + b)[1..] == a[1..] + b;
      JoinedTakesOwn(TracedNext(t, a[0]), a[1..], b);
    }
  }

  lemma OneStep(t: Traced, x: Step)
    requires Permitted(t.config, x)
    ensures RunOk(t.config, [x]) && TracedRun(t, [x]) == TracedNext(t, x)
    ensures AlwaysTakesOwn(t, [x]) <==> TakesOwn(t, x)
  {
    assert [x][1..] == [];
  }

  lemma TwoSteps(t: Traced, x: Step, y: Step)
    requires Permitted(t.config, x) && Permitted(Next(t.config, x), y)
    ensures RunOk(t.config, [x, y]) && TracedRun(t, [x, y]) == TracedNext(TracedNext(t, x), y)
    ensures AlwaysTakesOwn(t, [x, y]) <==> TakesOwn(t, x) && TakesOwn(TracedNext(t, x), y)
  {
    OneStep(t, x);
    OneStep(TracedNext(t, x), y);
    assert [x] + [y] == [x, y];
    Joined(t, [x], [y]);
    JoinedTakesOwn(t, [x], [y]);
  }

  /** What a wait does to the connections: nothing. */
  lemma WaitTraced(t: Traced, events: seq<Event>)
    requires Permitted(t.config, Wait(events))
    ensures var u := TracedNext(t, Wait(events));
      u.config == t.config.(pending := events) && forall fd :: Since(u, fd) == Since(t, fd)
  {
  }

  lemma SinceNext(t: Traced, step: Step, fd: int)
    requires Permitted(t.config, step)
    ensures Since(TracedNext(t, step), fd)
            == if fd in Opened(t.config, step) then |Log(t.config.server.enqueued, fd)| else Since(t, fd)
  {
  }

  /** One reported event: what it does to the connections. */
  lemma OneEvent(t: Traced, ev: Event, io: Io, fd: int) returns (steps: seq<Step>)
    requires ConfigInv(t.config) && SinceOk(t) && t.config.pending == []
    requires Reportable(t.config.server, ev) && Possible(t.config.server, io)
    ensures RunOk(t.config, steps)
    ensures var s, u := t.config.server, TracedRun(t, steps);
      && u.config == Config(Handle(s, ev, io), []) && ConfigInv(u.config) && SinceOk(u)
      && Since(u, fd) == (if fd in u.config.server.open && fd !in s.open then |Log(s.enqueued, fd)| else Since(t, fd))
      && (ev.events == {OUT} && ForeignOn(t, ev.fd) ==> !AlwaysTakesOwn(t, steps))
  {
    var wait, serve := Wait([ev]), Serve(io);
    steps := [wait, serve];
    var waiting := TracedNext(t, wait);
    WaitTraced(t, [ev]);
    StepInv(t.config, wait);
    StepSinceOk(t, wait);
    StepInv(waiting.config, serve);
    StepSinceOk(waiting, serve);
    TakesOwnIffNoForeignSend(waiting, serve);
    SinceNext(waiting, serve, fd);
    TwoSteps(t, wait, serve);
    ServeOne(t.config.server, ev, io);
  }

  lemma ServeOne(s: State, ev: Event, io: Io)
    requires Possible(s, io)
    ensures Next(Config(s, [ev]), Serve(io)) == Config(Handle(s, ev, io), [])
  {
    assert [ev][1..] == [];
  }

  /** Descriptor 7 asks for a vote and hangs up; it is closed with its response queued and nothing sent.
      The number is used again, the new peer asks for a vote too, and it is sent the response to its
      predecessor in front of its own. */
  lemma OldResponseGoesToNewPeer(request: VoteReq, reply: VoteResp, request2: VoteReq, reply2: VoteResp)
    returns (gone: seq<Step>, rest: seq<Step>)
    ensures RunOk(Start(3, 4), gone) && RunOk(Run(Start(3, 4), gone), rest)
    ensures var s := Run(Start(3, 4), gone).server;
      7 !in s.open && Log(s.queues, 7) == [Cell(0, reply)] && Log(s.wire, 7) == []
    ensures Log(Run(Run(Start(3, 4), gone), rest).server.wire, 7) == RespFrame(reply) + RespFrame(reply2)
    ensures RunOk(Start(3, 4), gone + rest) && !AlwaysTakesOwn(Traced(Start(3, 4), map[]), gone + rest)
  {
    gone := HangUpLeavesResponse(request, reply);
    var t0 := Traced(Start(3, 4), map[]);
    TracedConfig(t0, gone);
    InitInv(3, 4);
    RunInv(Start(3, 4), gone);
    RunSinceOk(t0, gone);
    rest := SendsLeftover(TracedRun(t0, gone), request, reply, request2, reply2);
    TracedConfig(TracedRun(t0, gone), rest);
    Joined(t0, gone, rest);
    JoinedTakesOwn(t0, gone, rest);
  }

  lemma {:induction false} RunSinceOk(t: Traced, steps: seq<Step>)
    requires ConfigInv(t.config) && SinceOk(t) && RunOk(t.config, steps)
    ensures SinceOk(TracedRun(t, steps))
    decreases |steps|
  {
    if steps != [] {
      StepInv(t.config, steps[0]);
      StepSinceOk(t, steps[0]);
      RunSinceOk(TracedNext(t, steps[0]), steps[1..]);
    }
  }

  /** From the state behind the hang-up: accept, then ask and write. */
  lemma SendsLeftover(t: Traced, request: VoteReq, reply: VoteResp, request2: VoteReq, reply2: VoteResp)
    returns (rest: seq<Step>)
    requires t.config == Config(AfterHangUp(request, reply), []) && ConfigInv(t.config) && SinceOk(t)
    ensures RunOk(t.config, rest) && !AlwaysTakesOwn(t, rest)
    ensures Log(TracedRun(t, rest).config.server.wire, 7) == RespFrame(reply) + RespFrame(reply2)
  {
    AcceptAgain(request, reply);
    var accept := OneEvent(t, Event(3, {IN}), Io([7], [], [], WouldBlock, reply, QUIET), 7);
    var more := AskAndSend(TracedRun(t, accept), 7, Cell(0, reply), request2, reply2);
    Joined(t, accept, more);
    JoinedTakesOwn(t, accept, more);
    rest := accept + more;
  }

  /** A connection with a response of an earlier one in its queue asks for a vote and is written to. */
  lemma AskAndSend(t: Traced, fd: int, left: Cell, request: VoteReq, reply: VoteResp) returns (steps: seq<Step>)
    requires ConfigInv(t.config) && SinceOk(t) && t.config.pending == [] && ForeignOn(t, fd)
    requires var s := t.config.server;
      && fd in s.interest && IN in s.interest[fd] && fd != s.listenfd && fd != s.udpfd
      && Log(s.queues, fd) == [left] && Log(s.wire, fd) == []
    ensures RunOk(t.config, steps) && !AlwaysTakesOwn(t, steps)
    ensures Log(TracedRun(t, steps).config.server.wire, fd) == RespFrame(left.resp) + RespFrame(reply)
  {
    var own := Cell(t.config.server.mallocs, reply);
    var a := AskBehind(t, fd, request, reply);
    var b := SendTwo(TracedRun(t, a), fd, left, own);
    Joined(t, a, b);
    JoinedTakesOwn(t, a, b);
    steps := a + b;
  }

  lemma AskBehind(t: Traced, fd: int, request: VoteReq, reply: VoteResp) returns (steps: seq<Step>)
    requires ConfigInv(t.config) && SinceOk(t) && t.config.pending == [] && ForeignOn(t, fd)
    requires var s := t.config.server;
      fd in s.interest && IN in s.interest[fd] && fd != s.listenfd && fd != s.udpfd
    ensures RunOk(t.config, steps)
    ensures var s, u := t.config.server, TracedRun(t, steps);
      && ConfigInv(u.config) && SinceOk(u) && u.config.pending == [] && ForeignOn(u, fd)
      && Reportable(u.config.server, Event(fd, {OUT}))
      && Log(u.config.server.queues, fd) == Log(s.queues, fd) + [Cell(s.mallocs, reply)]
      && Log(u.config.server.wire, fd) == Log(s.wire, fd)
  {
    var ask := Io([], [], [ReqFrame(request)], WouldBlock, reply, QUIET);
    var asked := AskAgain(t.config.server, fd, request, ask);
    HandleTakesOnlyOn(t.config.server, Event(fd, {IN}), ask, fd);
    steps := OneEvent(t, Event(fd, {IN}), ask, fd);
  }

  lemma SendTwo(t: Traced, fd: int, left: Cell, own: Cell) returns (steps: seq<Step>)
    requires ConfigInv(t.config) && SinceOk(t) && t.config.pending == [] && ForeignOn(t, fd)
    requires var s := t.config.server;
      Reportable(s, Event(fd, {OUT})) && Log(s.queues, fd) == [left, own] && Log(s.wire, fd) == []
    ensures RunOk(t.config, steps) && !AlwaysTakesOwn(t, steps)
    ensures Log(TracedRun(t, steps).config.server.wire, fd) == RespFrame(left.resp) + RespFrame(own.resp)
  {
    var send := Io([], [], [], WouldBlock, own.resp, k => Accepted(RESP_FRAME));
    FlattenOne([]);
    steps := OneEvent(t, Event(fd, {OUT}), send, fd);
    HandleWriteWire(t.config.server, Event(fd, {OUT}), send);
    TwoFrames(left, own);
  }

  /** Descriptor 7 is open again, for reading only, with the old response in its queue. */
  lemma AcceptAgain(request: VoteReq, reply: VoteResp)
    ensures Flatten([]) == []
    ensures var s := AfterHangUp(request, reply);
      var t := Handle(s, Event(3, {IN}), Io([7], [], [], WouldBlock, reply, QUIET));
      && t == s.(interest := s.interest[7 := LISTEN_MASK], open := s.open + {7})
      && 7 !in s.open && Log(s.taken, 7) == [] && Log(s.wire, 7) == []
      && Log(s.enqueued, 7) == Log(s.queues, 7) == [Cell(0, reply)] && s.mallocs == 1
  {
    assert [7][1..] == [];
  }

  lemma TwoFrames(c: Cell, d: Cell)
    ensures Frames([c, d]) == RespFrame(c.resp) + RespFrame(d.resp)
  {
    FramesHead([c, d]);
    FramesHead([d]);
    assert [c, d][1..] == [d] && [d][1..] == [];
  }

  lemma AskAgain(s: State, fd: int, request: VoteReq, io: Io) returns (t: State)
    requires Inv(s) && fd in s.interest && fd != s.listenfd && fd != s.udpfd && IN in s.interest[fd]
    requires io.accepted == [] && io.datagram == [] && io.chunks == [ReqFrame(request)] && io.end == WouldBlock
    requires forall k :: !io.writes(k).Accepted?
    ensures Possible(s, io) && Reportable(s, Event(fd, {IN})) && t == Handle(s, Event(fd, {IN}), io)
    ensures fd in t.open && Reportable(t, Event(fd, {OUT}))
    ensures Log(t.queues, fd) == Log(s.queues, fd) + [Cell(s.mallocs, io.reply)] && Log(t.wire, fd) == Log(s.wire, fd)
  {
    FlattenOne(ReqFrame(request));
    ReadReqFrame(request, [], WouldBlock);
    assert ReqFrame(request) + [] == ReqFrame(request);
    HandleRead(s, Event(fd, {IN}), io);
    t := Handle(s, Event(fd, {IN}), io);
  }

  lemma WritableWire(s: State, ev: Event, writes: nat -> WriteResult)
    requires ev.fd in s.queues
    ensures Writable(s, ev, writes).wire == Drain(s, ev.fd, writes, 0).wire
  {
    var drained := Drain(s, ev.fd, writes, 0);
    EpollModSame(drained, ev.fd, ev.events - {OUT} + {IN});
    RmBadFdSame(drained, ev.fd);
  }

  /** An event that is only about writing is the write branch. */
  lemma HandleWrite(s: State, ev: Event, io: Io)
    requires ev.events == {OUT} && Complete(Flatten(io.chunks))
    ensures Handle(s, ev, io) == Writable(s, ev, io.writes)
  {
  }

  lemma HandleWriteWire(s: State, ev: Event, io: Io)
    requires ev.events == {OUT} && Complete(Flatten(io.chunks)) && ev.fd in s.open && ev.fd in s.queues
    requires forall k :: io.writes(k) == Accepted(RESP_FRAME)
    ensures Log(Handle(s, ev, io).wire, ev.fd) == Log(s.wire, ev.fd) + Frames(Log(s.queues, ev.fd))
  {
    HandleWrite(s, ev, io);
    WritableWire(s, ev, io.writes);
    DrainSendsAllIffWritesFull(s, ev.fd, io.writes);
  }
}
