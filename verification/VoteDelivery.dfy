/** From the queue of one server, over a byte stream, to the election logic of its peer. */
module VoteDelivery {
  import opened Bytes
  import opened DataProtocal
  import opened RequestVote
  import opened EpollModel
  import opened EpollInvariant
  import opened EpollRuns
  import opened Stranding

  /** The complete frames of some responses. */
  function Frames(cells: seq<Cell>): (s: seq<byte>)
    ensures |s| == RESP_FRAME * |cells|
  {
    if cells == [] then [] else
    var n := |cells| - 1;
    Frames(cells[..n]) + RespFrame(cells[n].resp)
  }

  ghost predicate AllFull(cuts: seq<nat>) {
    forall i :: 0 <= i < |cuts| ==> cuts[i] == RESP_FRAME
  }

  lemma {:induction false} FullCuts(cells: seq<Cell>, cuts: seq<nat>)
    requires |cells| == |cuts| && AllFull(cuts)
    ensures CutFrames(cells, cuts) == Frames(cells)
  {
    if cells != [] {
      var n := |cells| - 1;
      FullCuts(cells[..n], cuts[..n]);
      assert RespFrame(cells[n].resp)[..RESP_FRAME] == RespFrame(cells[n].resp);
    }
  }

  lemma CutsTogether(n: nat, front: nat, cut: nat)
    requires front <= RESP_FRAME * n && cut <= RESP_FRAME
    ensures front + cut <= RESP_FRAME * (n + 1)
    ensures front + cut == RESP_FRAME * (n + 1) ==> front == RESP_FRAME * n && cut == RESP_FRAME
  {
  }

  lemma {:induction false} CutFramesLength(cells: seq<Cell>, cuts: seq<nat>)
    requires |cells| == |cuts| && forall i :: 0 <= i < |cuts| ==> cuts[i] <= RESP_FRAME
    ensures |CutFrames(cells, cuts)| <= RESP_FRAME * |cells|
    ensures |CutFrames(cells, cuts)| == RESP_FRAME * |cells| ==> AllFull(cuts)
  {
    if cells != [] {
      var n := |cells| - 1;
      CutFramesLength(cells[..n], cuts[..n]);
      CutsTogether(n, |CutFrames(cells[..n], cuts[..n])|, cuts[n]);
      assert cuts == cuts[..n] + [cuts[n]];
    }
  }

  /** Over a whole run, a descriptor's socket has got exactly the frames of the responses taken from
      its queue if and only if every one of its writes took the whole frame. After a short write the
      rest of the frame is never sent: the loop ends and the next response starts in the middle. */
  lemma StreamIntactIffFullWrites(c: Config, steps: seq<Step>, fd: int)
    requires ConfigInv(c) && RunOk(c, steps)
    ensures var s := Run(c, steps).server;
      Log(s.wire, fd) == Frames(Log(s.taken, fd)) <==> AllFull(Log(s.accepted, fd))
  {
    RunInv(c, steps);
    var s := Run(c, steps).server;
    assert StreamedOn(s, fd);
    CutFramesLength(Log(s.taken, fd), Log(s.accepted, fd));
    if AllFull(Log(s.accepted, fd)) {
      FullCuts(Log(s.taken, fd), Log(s.accepted, fd));
    }
  }

  // ----- the frames, byte by byte

  lemma BodyOfFrame(s: seq<byte>, body: seq<byte>, i: nat, j: nat)
    requires 9 <= |s| && s[9..] == body && i <= j <= |body|
    ensures s[9 + i..9 + j] == body[i..j]
  {
    assert s[9..][i..j] == s[9 + i..9 + j];
  }

  /** The frame of a vote response, field by field. */
  lemma RespFrameLayout(r: VoteResp)
    ensures var s := RespFrame(r);
      && |s| == 36 && s[0] == 2 && s[1..9] == U64(27)
      && s[9..17] == U64(r.term) && s[17..19] == U16(r.candidateId) && s[19] == (if r.voteGranted then 1 else 0)
      && s[20..28] == U64(r.requestTerm) && s[28..36] == U64(r.timeInNano)
  {
    var s, body := RespFrame(r), EncodeVoteResp(r);
    VoteRespLayout(r);
    BodyOfFrame(s, body, 0, 8);
    BodyOfFrame(s, body, 8, 10);
    BodyOfFrame(s, body, 11, 19);
    BodyOfFrame(s, body, 19, 27);
  }

  /** The frame of a vote request, field by field. */
  lemma ReqFrameLayout(q: VoteReq)
    ensures var s := ReqFrame(q);
      && |s| == 43 && s[0] == 1 && s[1..9] == U64(34)
      && s[9..17] == U64(q.term) && s[17..19] == U16(q.candidateId)
      && s[19..27] == U64(q.lastLogIndex) && s[27..35] == U64(q.lastLogTerm) && s[35..43] == U64(q.timeInNano)
  {
    var s, body := ReqFrame(q), EncodeVoteReq(q);
    VoteReqLayout(q);
    BodyOfFrame(s, body, 0, 8);
    BodyOfFrame(s, body, 8, 10);
    BodyOfFrame(s, body, 10, 18);
    BodyOfFrame(s, body, 18, 26);
    BodyOfFrame(s, body, 26, 34);
  }

  /** The read branch sees the response at the front of the received bytes, whatever follows it. */
  lemma ReadRespFrame(r: VoteResp, trailing: seq<byte>, end: ReadEnd)
    requires end != ReadFailed
    ensures var m := RespFrame(r) + trailing; Complete(m) && ReadInput(m, end) == Response(r)
  {
    UnframeOfFrame(REQUEST_VOTE_RESPONSE, EncodeVoteResp(r), trailing);
    VoteRespRoundTrip(r, trailing);
  }

  lemma ReadReqFrame(q: VoteReq, trailing: seq<byte>, end: ReadEnd)
    requires end != ReadFailed
    ensures var m := ReqFrame(q) + trailing; Complete(m) && ReadInput(m, end) == Request(q)
  {
    UnframeOfFrame(REQUEST_VOTE_REQUEST, EncodeVoteReq(q), trailing);
    VoteReqRoundTrip(q, trailing);
  }

  // ----- writing

  /** Every response of a queue is written in full, with the write calls from the k-th one on. */
  ghost predicate WritesFull(s: State, fd: int, writes: nat -> WriteResult, k: nat) {
    var n := |Log(s.queues, fd)|;
    (n != 0 ==> fd in s.open) && forall i :: k <= i < k + n ==> writes(i) == Accepted(RESP_FRAME)
  }

  lemma WritesFullAfterOne(s: State, fd: int, writes: nat -> WriteResult, k: nat)
    requires Log(s.queues, fd) != []
    ensures WritesFull(s, fd, writes, k) <==>
      fd in s.open && writes(k) == Accepted(RESP_FRAME) && WritesFull(DrainOne(s, fd, writes(k)), fd, writes, k + 1)
  {
    DrainOneQueues(s, fd, writes(k));
    if fd in s.open && writes(k) == Accepted(RESP_FRAME) {
      assert fd in DrainOne(s, fd, writes(k)).open;
    }
  }

  lemma DrainOneWire(s: State, fd: int, w: WriteResult) returns (sent: seq<byte>)
    requires Log(s.queues, fd) != []
    ensures Log(DrainOne(s, fd, w).wire, fd) == Log(s.wire, fd) + sent && sent <= RespFrame(s.queues[fd][0].resp)
    ensures |sent| == RESP_FRAME <==> fd in s.open && w == Accepted(RESP_FRAME)
  {
    var n := AcceptedBytes(if fd in s.open then w else Failed);
    sent := RespFrame(s.queues[fd][0].resp)[..n];
    RmBadFdSame(Sent(s, fd, n), fd);
    LogOfExtend(s.wire, fd, sent, fd);
  }

  lemma FramesHead(cells: seq<Cell>)
    requires cells != []
    ensures Frames(cells) == RespFrame(cells[0].resp) + Frames(cells[1..])
  {
    var n := |cells| - 1;
    if n != 0 {
      FramesHead(cells[..n]);
      assert cells[..n][1..] == cells[1..][..n - 1];
    }
  }

  lemma SentTogether(frame: seq<byte>, first: seq<byte>, rest: seq<byte>, n: nat)
    requires |frame| == RESP_FRAME && first <= frame && |rest| <= RESP_FRAME * n
    ensures |first + rest| <= RESP_FRAME * (n + 1)
    ensures |first + rest| == RESP_FRAME * (n + 1) <==> first == frame && |rest| == RESP_FRAME * n
  {
  }

  lemma {:induction false} DrainWire(s: State, fd: int, writes: nat -> WriteResult, k: nat) returns (sent: seq<byte>)
    ensures Log(Drain(s, fd, writes, k).wire, fd) == Log(s.wire, fd) + sent
    ensures |sent| <= RESP_FRAME * |Log(s.queues, fd)|
    ensures |sent| == RESP_FRAME * |Log(s.queues, fd)| <==> WritesFull(s, fd, writes, k)
    ensures WritesFull(s, fd, writes, k) ==> sent == Frames(Log(s.queues, fd))
    decreases |Log(s.queues, fd)|
  {
    if Log(s.queues, fd) == [] {
      sent := [];
    } else {
      var q, next := s.queues[fd], DrainOne(s, fd, writes(k));
      DrainOneQueues(s, fd, writes(k));
      WritesFullAfterOne(s, fd, writes, k);
      var first := DrainOneWire(s, fd, writes(k));
      var rest := DrainWire(next, fd, writes, k + 1);
      FramesHead(q);
      SentTogether(RespFrame(q[0].resp), first, rest, |q| - 1);
      sent := first + rest;
      Regrouped(Log(s.wire, fd), first, rest);
    }
  }

  lemma Regrouped(a: seq<byte>, b: seq<byte>, c: seq<byte>)
    ensures a + b + c == a + (b + c)
  {
  }

  /** A drain puts exactly the frames of the whole queue on the wire if and only if the connection is open
      and every write takes its whole frame. */
  lemma DrainSendsAllIffWritesFull(s: State, fd: int, writes: nat -> WriteResult)
    ensures Log(Drain(s, fd, writes, 0).wire, fd) == Log(s.wire, fd) + Frames(Log(s.queues, fd))
            <==> WritesFull(s, fd, writes, 0)
  {
    var sent := DrainWire(s, fd, writes, 0);
    if Log(s.wire, fd) + sent == Log(s.wire, fd) + Frames(Log(s.queues, fd)) {
      SameRest(Log(s.wire, fd), sent, Frames(Log(s.queues, fd)));
    }
  }

  // ----- reading

  /** An event on a peer connection, and what happens while it is handled. */
  datatype Round = Round(ev: Event, io: Io)

  function Message(r: Round): seq<byte> {
    Flatten(r.io.chunks)
  }

  /** A readable event on a connection that brings some bytes, no vote message of them incomplete. */
  predicate Brings(listenfd: int, udpfd: int, r: Round) {
    && r.ev.fd != listenfd && r.ev.fd != udpfd
    && IN in r.ev.events && ERR !in r.ev.events && HUP !in r.ev.events
    && Complete(Message(r)) && Message(r) != [] && r.io.end != ReadFailed
  }

  predicate AllComplete(rounds: seq<Round>) {
    rounds == [] || (Complete(Message(rounds[0])) && AllComplete(rounds[1..]))
  }

  predicate AllBring(listenfd: int, udpfd: int, rounds: seq<Round>)
    ensures AllBring(listenfd, udpfd, rounds) ==> AllComplete(rounds)
  {
    rounds == [] || (Brings(listenfd, udpfd, rounds[0]) && AllBring(listenfd, udpfd, rounds[1..]))
  }

  function HandleRounds(b: State, rounds: seq<Round>): State
    requires AllComplete(rounds)
    decreases |rounds|
  {
    if rounds == [] then b else HandleRounds(Handle(b, rounds[0].ev, rounds[0].io), rounds[1..])
  }

  /** All bytes of the rounds. */
  function Received(rounds: seq<Round>): seq<byte> {
    if rounds == [] then [] else Message(rounds[0]) + Received(rounds[1..])
  }

  function Responses(cells: seq<Cell>): (rs: seq<VoteResp>)
    ensures |rs| == |cells|
  {
    if cells == [] then [] else [cells[0].resp] + Responses(cells[1..])
  }

  /** The responses the election logic gets from one message. */
  function VotesOf(message: seq<byte>): (votes: seq<VoteResp>)
    requires Complete(message)
    ensures votes != [] ==> |votes| == 1 && RESP_FRAME <= |message|
  {
    match ReadInput(message, WouldBlock)
    case Response(r) => [r]
    case _ => []
  }

  function AllVotes(rounds: seq<Round>): seq<VoteResp>
    requires AllComplete(rounds)
  {
    if rounds == [] then [] else VotesOf(Message(rounds[0])) + AllVotes(rounds[1..])
  }

  lemma DrainOneKeepsVotes(s: State, fd: int, w: WriteResult)
    requires Log(s.queues, fd) != []
    ensures DrainOne(s, fd, w).votes == s.votes
  {
  }

  lemma {:induction false} DrainKeepsVotes(s: State, fd: int, writes: nat -> WriteResult, k: nat)
    ensures Drain(s, fd, writes, k).votes == s.votes
    decreases |Log(s.queues, fd)|
  {
    if Log(s.queues, fd) != [] {
      DrainOneKeepsVotes(s, fd, writes(k));
      DrainOneQueues(s, fd, writes(k));
      DrainKeepsVotes(DrainOne(s, fd, writes(k)), fd, writes, k + 1);
    }
  }

  lemma WritableKeepsVotes(s: State, ev: Event, writes: nat -> WriteResult)
    ensures Writable(s, ev, writes).votes == s.votes
  {
    if ev.fd in s.queues {
      DrainKeepsVotes(s, ev.fd, writes, 0);
    }
  }

  lemma ReadableVotes(b: State, ev: Event, input: Input, reply: VoteResp)
    ensures Readable(b, ev, input, reply).0.votes == b.votes + (if input.Response? then [input.r] else [])
  {
  }

  lemma RoundVotes(b: State, r: Round)
    requires Brings(b.listenfd, b.udpfd, r)
    ensures var t := Handle(b, r.ev, r.io);
      t.votes == b.votes + VotesOf(Message(r)) && t.listenfd == b.listenfd && t.udpfd == b.udpfd
  {
    var input := ReadInput(Message(r), r.io.end);
    var read := Readable(b, r.ev, input, r.io.reply).0;
    ReadableVotes(b, r.ev, input, r.io.reply);
    WritableKeepsVotes(read, r.ev, r.io.writes);
    ReadableOnlyOn(b, r.ev, input, r.io.reply);
    WritableOnlyOn(read, r.ev, r.io.writes);
  }

  lemma {:induction false} RoundsVotes(b: State, rounds: seq<Round>)
    requires AllBring(b.listenfd, b.udpfd, rounds)
    ensures HandleRounds(b, rounds).votes == b.votes + AllVotes(rounds)
    decreases |rounds|
  {
    if rounds != [] {
      RoundVotes(b, rounds[0]);
      RoundsVotes(Handle(b, rounds[0].ev, rounds[0].io), rounds[1..]);
    }
  }

  /** Each message is exactly as long as one frame. */
  predicate OneFrameEach(rounds: seq<Round>) {
    rounds == [] || (|Message(rounds[0])| == RESP_FRAME && OneFrameEach(rounds[1..]))
  }

  lemma CostTogether(votes: nat, message: nat, moreVotes: nat, more: nat)
    requires votes <= 1 && 0 < message && (votes == 1 ==> RESP_FRAME <= message) && RESP_FRAME * moreVotes <= more
    ensures RESP_FRAME * (votes + moreVotes) <= message + more
    ensures RESP_FRAME * (votes + moreVotes) == message + more ==>
      message == RESP_FRAME && RESP_FRAME * moreVotes == more
  {
  }

  /** No message gives more than one response, and it takes at least a frame to give one. */
  lemma {:induction false} VotesCost(listenfd: int, udpfd: int, rounds: seq<Round>)
    requires AllBring(listenfd, udpfd, rounds)
    ensures RESP_FRAME * |AllVotes(rounds)| <= |Received(rounds)|
    ensures RESP_FRAME * |AllVotes(rounds)| == |Received(rounds)| ==> OneFrameEach(rounds)
    decreases |rounds|
  {
    if rounds != [] {
      VotesCost(listenfd, udpfd, rounds[1..]);
      var votes, message := VotesOf(Message(rounds[0])), Message(rounds[0]);
      CostTogether(|votes|, |message|, |AllVotes(rounds[1..])|, |Received(rounds[1..])|);
    }
  }

  /** A message of the length of a frame, at the front of a stream of frames, is the first of them. */
  lemma FirstMessage(message: seq<byte>, rest: seq<byte>, cells: seq<Cell>)
    requires message + rest == Frames(cells) && |message| == RESP_FRAME
    ensures cells != [] && message == RespFrame(cells[0].resp) && rest == Frames(cells[1..])
    ensures Complete(message) && forall end :: end != ReadFailed ==> ReadInput(message, end) == Response(cells[0].resp)
  {
    assert cells != [];
    FramesHead(cells);
    var frame := RespFrame(cells[0].resp);
    assert message == (message + rest)[..RESP_FRAME] == (frame + Frames(cells[1..]))[..RESP_FRAME] == frame;
    assert rest == (message + rest)[RESP_FRAME..] == (frame + Frames(cells[1..]))[RESP_FRAME..];
    assert frame + [] == frame;
    ReadRespFrame(cells[0].resp, [], WouldBlock);
    ReadRespFrame(cells[0].resp, [], EndOfStream);
  }

  lemma {:induction false} FrameWise(rounds: seq<Round>, cells: seq<Cell>)
    requires AllComplete(rounds) && OneFrameEach(rounds) && Received(rounds) == Frames(cells)
    ensures AllVotes(rounds) == Responses(cells)
    decreases |rounds|
  {
    if rounds != [] {
      FirstMessage(Message(rounds[0]), Received(rounds[1..]), cells);
      FrameWise(rounds[1..], cells[1..]);
    }
  }

  /** Whatever way a stream of responses is split over the events at the reader: the election logic gets
      exactly the responses, in order, if and only if every event brings exactly one frame. */
  lemma StreamReadIffOneFrameEach(b: State, rounds: seq<Round>, cells: seq<Cell>)
    requires AllBring(b.listenfd, b.udpfd, rounds)
    requires Received(rounds) == Frames(cells)
    ensures HandleRounds(b, rounds).votes == b.votes + Responses(cells) <==> OneFrameEach(rounds)
  {
    RoundsVotes(b, rounds);
    VotesCost(b.listenfd, b.udpfd, rounds);
    if OneFrameEach(rounds) {
      FrameWise(rounds, cells);
    }
    if b.votes + AllVotes(rounds) == b.votes + Responses(cells) {
      assert |AllVotes(rounds)| == |cells|;
    }
  }

  /** An event without write interest on a peer connection is its read branch. */
  lemma HandleRead(s: State, ev: Event, io: Io)
    requires ev.events == {IN} && ev.fd != s.listenfd && ev.fd != s.udpfd && Complete(Flatten(io.chunks))
    ensures Handle(s, ev, io) == Readable(s, ev, ReadInput(Flatten(io.chunks), io.end), io.reply).0
  {
  }

  lemma SameRest(front: seq<byte>, x: seq<byte>, y: seq<byte>)
    requires front + x == front + y
    ensures x == y
  {
    assert (front + x)[|front|..] == x && (front + y)[|front|..] == y;
  }

  /** Events that are about reading only. */
  predicate OnlyReading(rounds: seq<Round>) {
    rounds == [] || (rounds[0].ev.events == {IN} && OnlyReading(rounds[1..]))
  }

  lemma FrameRound(b: State, r: Round, rest: seq<byte>, cells: seq<Cell>)
    requires Brings(b.listenfd, b.udpfd, r) && r.ev.events == {IN}
    requires |Message(r)| == RESP_FRAME && Message(r) + rest == Frames(cells)
    ensures cells != [] && rest == Frames(cells[1..])
    ensures Handle(b, r.ev, r.io) == b.(votes := b.votes + [cells[0].resp])
  {
    FirstMessage(Message(r), rest, cells);
    HandleRead(b, r.ev, r.io);
  }

  predicate ReadsFrames(b: State, rounds: seq<Round>, cells: seq<Cell>) {
    && AllBring(b.listenfd, b.udpfd, rounds) && OnlyReading(rounds)
    && OneFrameEach(rounds) && Received(rounds) == Frames(cells)
  }

  lemma FrameRounds(b: State, rounds: seq<Round>, cells: seq<Cell>) returns (next: State)
    requires ReadsFrames(b, rounds, cells) && rounds != []
    ensures cells != [] && next == b.(votes := b.votes + [cells[0].resp])
    ensures ReadsFrames(next, rounds[1..], cells[1..])
    ensures HandleRounds(b, rounds) == HandleRounds(next, rounds[1..])
  {
    next := Handle(b, rounds[0].ev, rounds[0].io);
    FrameRound(b, rounds[0], Received(rounds[1..]), cells);
  }

  /** If the events are about reading only, nothing else changes at the reader. */
  lemma {:induction false} FrameWiseChangesNothingElse(b: State, rounds: seq<Round>, cells: seq<Cell>)
    requires ReadsFrames(b, rounds, cells)
    ensures HandleRounds(b, rounds) == b.(votes := b.votes + Responses(cells))
    decreases |rounds|
  {
    if rounds == [] {
      assert cells == [];
    } else {
      var next := FrameRounds(b, rounds, cells);
      FrameWiseChangesNothingElse(next, rounds[1..], cells[1..]);
      assert b.votes + [cells[0].resp] + Responses(cells[1..]) == b.votes + Responses(cells);
    }
  }

  /** A request that is read arms its connection for writing, and queues behind the waiting responses
      whatever the election logic makes of exactly this request. Nothing else changes. */
  lemma RequestAnswered(b: State, ev: Event, io: Io, q: VoteReq, trailing: seq<byte>)
    requires Inv(b) && Reportable(b, ev) && ev.events == {IN} && ev.fd != b.listenfd && ev.fd != b.udpfd
    requires Flatten(io.chunks) == ReqFrame(q) + trailing && io.end != ReadFailed
    ensures Complete(Flatten(io.chunks))
    ensures var c := Cell(b.mallocs, io.reply);
      Handle(b, ev, io) == b.(requests := b.requests + [q],
        interest := b.interest[ev.fd := {IN, OUT}],
        mallocs := b.mallocs + 1, live := b.live + {b.mallocs},
        queues := b.queues[ev.fd := Log(b.queues, ev.fd) + [c]],
        enqueued := b.enqueued[ev.fd := Log(b.enqueued, ev.fd) + [c]])
  {
    ReadReqFrame(q, trailing, io.end);
    HandleRead(b, ev, io);
    assert {IN} + {OUT} == {IN, OUT};
  }

  /** A message of any other type, whatever its size, is dropped. */
  lemma OtherTypeIsDropped(b: State, ev: Event, io: Io)
    requires Flatten(io.chunks) != [] && Flatten(io.chunks)[0] !in {1, 2} && io.end != ReadFailed
    requires ev.events == {IN} && ev.fd != b.listenfd && ev.fd != b.udpfd
    ensures Complete(Flatten(io.chunks)) && Handle(b, ev, io) == b
  {
    HandleRead(b, ev, io);
  }

  // ----- from server to server

  /** Some bytes that are read, and some responses that were to be sent: everything arrives if and only if
      it was all written and every event brings exactly one frame. */
  lemma ArrivesIffWrittenAndAligned(b: State, rounds: seq<Round>, cells: seq<Cell>, written: bool)
    requires AllBring(b.listenfd, b.udpfd, rounds)
    requires |Received(rounds)| <= RESP_FRAME * |cells|
    requires |Received(rounds)| == RESP_FRAME * |cells| ==> written
    requires written ==> Received(rounds) == Frames(cells)
    ensures HandleRounds(b, rounds).votes == b.votes + Responses(cells) <==> written && OneFrameEach(rounds)
    ensures OnlyReading(rounds) ==>
      (HandleRounds(b, rounds) == b.(votes := b.votes + Responses(cells)) <==> written && OneFrameEach(rounds))
  {
    RoundsVotes(b, rounds);
    VotesCost(b.listenfd, b.udpfd, rounds);
    assert b.votes + AllVotes(rounds) == b.votes + Responses(cells) ==> |AllVotes(rounds)| == |cells|;
    if written {
      StreamReadIffOneFrameEach(b, rounds, cells);
      if OneFrameEach(rounds) && OnlyReading(rounds) {
        FrameWiseChangesNothingElse(b, rounds, cells);
      }
    }
  }

  /** A queue of any length that is drained, and whatever got on the wire is read by the peer in any chunks
      and any number of events: all its responses reach the peer's election logic, in order and nothing
      besides, if and only if every write took a whole frame and every event brings exactly one. */
  lemma VoteEndToEnd(a: State, fd: int, writes: nat -> WriteResult, b: State, rounds: seq<Round>)
    requires AllBring(b.listenfd, b.udpfd, rounds)
    requires Log(Drain(a, fd, writes, 0).wire, fd) == Log(a.wire, fd) + Received(rounds)
    ensures HandleRounds(b, rounds).votes == b.votes + Responses(Log(a.queues, fd))
            <==> WritesFull(a, fd, writes, 0) && OneFrameEach(rounds)
    ensures OnlyReading(rounds) ==>
      (HandleRounds(b, rounds) == b.(votes := b.votes + Responses(Log(a.queues, fd)))
       <==> WritesFull(a, fd, writes, 0) && OneFrameEach(rounds))
  {
    var sent := DrainWire(a, fd, writes, 0);
    SameRest(Log(a.wire, fd), Received(rounds), sent);
    ArrivesIffWrittenAndAligned(b, rounds, Log(a.queues, fd), WritesFull(a, fd, writes, 0));
  }

  /** The same over a whole run of the sender: the peer that reads all that a descriptor's socket has taken
      gets exactly the responses taken from its queue if and only if every write of the run took a whole
      frame and every event at the reader brings exactly one. */
  lemma RunEndToEnd(c: Config, steps: seq<Step>, fd: int, b: State, rounds: seq<Round>)
    requires ConfigInv(c) && RunOk(c, steps) && AllBring(b.listenfd, b.udpfd, rounds)
    requires Received(rounds) == Log(Run(c, steps).server.wire, fd)
    ensures var s := Run(c, steps).server;
      HandleRounds(b, rounds).votes == b.votes + Responses(Log(s.taken, fd))
      <==> AllFull(Log(s.accepted, fd)) && OneFrameEach(rounds)
  {
    RunInv(c, steps);
    var s := Run(c, steps).server;
    assert StreamedOn(s, fd);
    CutFramesLength(Log(s.taken, fd), Log(s.accepted, fd));
    StreamIntactIffFullWrites(c, steps, fd);
    ArrivesIffWrittenAndAligned(b, rounds, Log(s.taken, fd), AllFull(Log(s.accepted, fd)));
  }

  /** Several complete frames that the peer gets in one event: the first one is handled as if it had
      come alone, and the others are dropped. */
  lemma CoalescedFramesLoseAllButTheFirst(cells: seq<Cell>, b: State, ev: Event, io: Io)
    requires cells != [] && Flatten(io.chunks) == Frames(cells) && io.end != ReadFailed
    requires ev.events == {IN} && ev.fd != b.listenfd && ev.fd != b.udpfd
    ensures Complete(Flatten(io.chunks))
    ensures Handle(b, ev, io) == b.(votes := b.votes + [cells[0].resp])
  {
    FramesHead(cells);
    ReadRespFrame(cells[0].resp, Frames(cells[1..]), io.end);
    HandleRead(b, ev, io);
  }

  /** A frame that was cut before the 27th byte is dropped without any effect on the peer. */
  lemma CutFrameIsDropped(r: VoteResp, n: nat, b: State, ev: Event, io: Io)
    requires 0 < n < VOTE_RESP_SIZE && Flatten(io.chunks) == RespFrame(r)[..n] && io.end != ReadFailed
    requires ev.events == {IN} && ev.fd != b.listenfd && ev.fd != b.udpfd
    ensures Complete(Flatten(io.chunks)) && Handle(b, ev, io) == b
  {
    HandleRead(b, ev, io);
  }

  // ----- where the stream breaks

  /** A run in which the socket takes only n bytes of the frame: the rest is never sent. */
  lemma ShortWriteCutsStream(request: VoteReq, reply: VoteResp, n: nat) returns (steps: seq<Step>)
    requires n < RESP_FRAME
    ensures RunOk(Start(3, 4), steps)
    ensures var s := Run(Start(3, 4), steps).server;
      && Log(s.queues, 7) == [] && Log(s.taken, 7) == [Cell(0, reply)]
      && Log(s.wire, 7) == RespFrame(reply)[..n] != Frames(Log(s.taken, 7))
  {
    var s, ev := AfterRequest(request, reply), Event(7, {OUT});
    var io := Io([], [], [], WouldBlock, reply, k => Accepted(n));
    FlattenOne([]);
    steps := RequestQueued(request, reply);
    steps := WaitAndServe(Start(3, 4), steps, ev, io);
    HandleShortWrite(s, ev, io, reply, n);
  }

  lemma HandleShortWrite(s: State, ev: Event, io: Io, reply: VoteResp, n: nat)
    requires n < RESP_FRAME && ev.events == {OUT} && Complete(Flatten(io.chunks))
    requires ev.fd in s.open && Log(s.queues, ev.fd) == [Cell(0, reply)] && io.writes(0) == Accepted(n)
    ensures var t := Handle(s, ev, io);
      && Log(t.queues, ev.fd) == [] && Log(t.taken, ev.fd) == Log(s.taken, ev.fd) + [Cell(0, reply)]
      && Log(t.wire, ev.fd) == Log(s.wire, ev.fd) + RespFrame(reply)[..n]
  {
    WritableQueues(s, ev, io.writes);
    WritableTakes(s, ev, io.writes);
    var next := DrainOne(s, ev.fd, io.writes(0));
    assert Drain(next, ev.fd, io.writes, 1) == next;
    LogOfExtend(s.wire, ev.fd, RespFrame(reply)[..n], ev.fd);
  }

  /** A message is complete exactly when the reads behind the size check lie inside what was received:
      the frame header, and in the unframed body the whole structure that the type announces. */
  lemma CompleteIffReadsInside(message: seq<byte>)
    ensures Complete(message) <==>
      (VOTE_RESP_SIZE <= |message| ==>
         var u := Unframe(message);
         && (u.msgtype == REQUEST_VOTE_REQUEST ==> VOTE_REQ_SIZE <= |u.body|)
         && (u.msgtype == REQUEST_VOTE_RESPONSE ==> VOTE_RESP_SIZE <= |u.body|))
  {
  }

  /** The frames that pass the size check although they are cut: of a response 27 to 35 bytes, of a
      request 27 to 42. */
  lemma CutFrameCompleteIff(r: VoteResp, q: VoteReq, n: nat)
    ensures n <= RESP_FRAME ==> (Complete(RespFrame(r)[..n]) <==> n < VOTE_RESP_SIZE || n == RESP_FRAME)
    ensures n <= REQ_FRAME ==> (Complete(ReqFrame(q)[..n]) <==> n < VOTE_RESP_SIZE || n == REQ_FRAME)
  {
    if VOTE_RESP_SIZE <= n <= RESP_FRAME {
      assert RespFrame(r)[..n][0] == REQUEST_VOTE_RESPONSE;
    }
    if VOTE_RESP_SIZE <= n <= REQ_FRAME {
      assert ReqFrame(q)[..n][0] == REQUEST_VOTE_REQUEST;
    }
  }
}
