/** The epoll server as a state machine on values: what one event, one registration and the
    destructor do. The kernel is part of the state: the open descriptors and the interest set. */
module EpollModel {
  import opened Bytes
  import opened DataProtocal
  import opened RequestVote

  datatype Flag = IN | OUT | ET | ERR | HUP

  type Mask = set<Flag>

  const BUFSIZE := 4096
  const LISTEN_MASK: Mask := {IN, ET}
  const CLIENT_MASK: Mask := {OUT, ET}

  /** Size of the frame of a vote response, and of a vote request. */
  const RESP_FRAME := FRAME_HEADER + VOTE_RESP_SIZE
  const REQ_FRAME := FRAME_HEADER + VOTE_REQ_SIZE

  datatype Event = Event(fd: int, events: Mask)

  /** What a write call returns: a count, -1 with EAGAIN, or -1 with another error. */
  datatype WriteResult = Accepted(n: nat) | Again | Failed

  /** What ends the reads of one event: 0, -1 with EAGAIN, or -1 with another error. */
  datatype ReadEnd = EndOfStream | WouldBlock | ReadFailed

  /** Everything the outside does while one event is handled: the descriptors accept returns, the
      datagram, the non-empty results of read and what ended them, the response the election logic
      fills in, and the results of the successive writes. */
  datatype Io = Io(accepted: seq<int>, datagram: seq<byte>, chunks: seq<seq<byte>>, end: ReadEnd,
                   reply: VoteResp, writes: nat -> WriteResult)

  /** An allocated response. The n-th allocation gets the pointer n; no field changes once it is
      queued, so the cell can be shown with its content. */
  datatype Cell = Cell(ptr: nat, resp: VoteResp)

  datatype State = State(
    listenfd: int,
    udpfd: int,
    clients: map<int, int>,
    queues: map<int, seq<Cell>>,
    // the kernel
    interest: map<int, Mask>,
    open: set<int>,
    // the allocator: number of allocations, blocks in use, calls of free
    mallocs: nat,
    live: set<nat>,
    frees: multiset<nat>,
    // history, by descriptor: enqueued responses, those the drain loop took, how many bytes of the
    // frame of each of them the socket accepted, and the accepted bytes themselves
    enqueued: map<int, seq<Cell>>,
    taken: map<int, seq<Cell>>,
    accepted: map<int, seq<nat>>,
    wire: map<int, seq<byte>>,
    // calls into the election logic
    requests: seq<VoteReq>,
    votes: seq<VoteResp>)

  function Log<T>(m: map<int, seq<T>>, fd: int): seq<T> {
    if fd in m then m[fd] else []
  }

  function Extend<T>(m: map<int, seq<T>>, fd: int, xs: seq<T>): map<int, seq<T>> {
    m[fd := Log(m, fd) + xs]
  }

  function Flatten(chunks: seq<seq<byte>>): seq<byte> {
    if chunks == [] then [] else chunks[0] + Flatten(chunks[1..])
  }

  function RespFrame(r: VoteResp): (s: seq<byte>)
    ensures |s| == RESP_FRAME
  {
    Frame(REQUEST_VOTE_RESPONSE, EncodeVoteResp(r))
  }

  function ReqFrame(r: VoteReq): (s: seq<byte>)
    ensures |s| == REQ_FRAME
  {
    Frame(REQUEST_VOTE_REQUEST, EncodeVoteReq(r))
  }

  // ----- what the outside can do

  /** accept returns positive descriptors that are not open yet; closed ones may come back. */
  predicate Acceptable(open: set<int>, fds: seq<int>)
    decreases |fds|
  {
    fds == [] || (0 < fds[0] && fds[0] !in open && Acceptable(open + {fds[0]}, fds[1..]))
  }

  /** A vote message that passes the size check has arrived completely. */
  predicate Complete(message: seq<byte>) {
    VOTE_RESP_SIZE <= |message| ==>
      && (message[0] == REQUEST_VOTE_REQUEST ==> REQ_FRAME <= |message|)
      && (message[0] == REQUEST_VOTE_RESPONSE ==> RESP_FRAME <= |message|)
  }

  ghost predicate Possible(s: State, io: Io) {
    && Acceptable(s.open, io.accepted)
    && |io.datagram| <= BUFSIZE
    && (forall i :: 0 <= i < |io.chunks| ==> 1 <= |io.chunks[i]| <= BUFSIZE - 1)
    && |Flatten(io.chunks)| <= BUFSIZE
    && Complete(Flatten(io.chunks))
    && forall k :: io.writes(k).Accepted? ==> io.writes(k).n <= RESP_FRAME
  }

  /** epoll_wait reports flags of the registered mask, errors and hang-ups. */
  predicate Reportable(s: State, ev: Event) {
    ev.fd in s.interest && ev.events <= s.interest[ev.fd] - {ET} + {ERR, HUP}
  }

  // ----- the server's functions

  /** EPOLL_CTL_MOD succeeds on the descriptors of the interest set. */
  function EpollMod(s: State, fd: int, mask: Mask): State {
    if fd in s.interest then s.(interest := s.interest[fd := mask]) else s
  }

  function CloseFd(s: State, fd: int): State {
    s.(interest := s.interest - {fd}, open := s.open - {fd})
  }

  /** The two own sockets and the peers' descriptors are armed again, any other one is closed. The
      response queue stays in the map. */
  function RmBadFd(s: State, fd: int): State {
    if fd == s.listenfd || fd == s.udpfd then EpollMod(s, fd, LISTEN_MASK)
    else if fd in s.clients then EpollMod(s, fd, CLIENT_MASK)
    else CloseFd(s, fd)
  }

  /** insert leaves existing keys alone. A descriptor whose connect failed is closed at once. */
  function RegisterClient(s: State, node: int, fd: int, connected: bool, addSucceeds: bool): State {
    s.(clients := if fd in s.clients then s.clients else s.clients[fd := node],
       queues := if fd in s.queues then s.queues else s.queues[fd := []],
       open := if connected then s.open + {fd} else s.open,
       interest := if connected && addSucceeds then s.interest[fd := CLIENT_MASK] else s.interest)
  }

  function AcceptAll(s: State, fds: seq<int>): State
    decreases |fds|
  {
    if fds == [] then s else
    AcceptAll(s.(interest := s.interest[fds[0] := LISTEN_MASK], open := s.open + {fds[0]}), fds[1..])
  }

  /** Allocates a response and puts it at the end of the descriptor's queue, created if missing. */
  function PutResp(s: State, fd: int, r: VoteResp): State {
    var c := Cell(s.mallocs, r);
    s.(mallocs := s.mallocs + 1, live := s.live + {c.ptr},
       queues := Extend(s.queues, fd, [c]), enqueued := Extend(s.enqueued, fd, [c]))
  }

  /** What the read branch makes of the bytes of one event. */
  datatype Input = Broken | Short | Request(q: VoteReq) | Response(r: VoteResp) | Other

  /** A failed read, or none at all, breaks the descriptor; end of stream behind some bytes does
      not. Fewer bytes than the smaller vote structure are dropped. */
  function ReadInput(message: seq<byte>, end: ReadEnd): Input
    requires Complete(message)
  {
    if end == ReadFailed || message == [] then Broken
    else if |message| < VOTE_RESP_SIZE then Short
    else MessageInput(Unframe(message))
  }

  function MessageInput(u: Unframed): Input
    requires u.msgtype == REQUEST_VOTE_REQUEST ==> VOTE_REQ_SIZE <= |u.body|
    requires u.msgtype == REQUEST_VOTE_RESPONSE ==> VOTE_RESP_SIZE <= |u.body|
  {
    if u.msgtype == REQUEST_VOTE_REQUEST then Request(DecodeVoteReq(u.body))
    else if u.msgtype == REQUEST_VOTE_RESPONSE then Response(DecodeVoteResp(u.body))
    else Other
  }

  /** The read branch; false says that the rest of the event is skipped. */
  function Readable(s: State, ev: Event, input: Input, reply: VoteResp): (State, bool) {
    match input
    case Broken => (RmBadFd(s, ev.fd), false)
    case Short => (s, false)
    case Request(q) =>
      if ev.fd !in s.interest then (RmBadFd(s, ev.fd), false) else
      var armed := EpollMod(s, ev.fd, ev.events + {OUT});
      (PutResp(armed.(requests := armed.requests + [q]), ev.fd, reply), true)
    case Response(r) => (s.(votes := s.votes + [r]), true)
    case Other => (s, true)
  }

  /** How much of a response frame a write call takes. */
  function AcceptedBytes(w: WriteResult): (n: nat)
    ensures n <= RESP_FRAME
  {
    if w.Accepted? && w.n <= RESP_FRAME then w.n else 0
  }

  /** n bytes of the frame of a response go to the socket, and its block is freed. */
  function Delivered(s: State, fd: int, c: Cell, n: nat): State
    requires n <= RESP_FRAME
  {
    s.(accepted := Extend(s.accepted, fd, [n]), wire := Extend(s.wire, fd, RespFrame(c.resp)[..n]),
       live := s.live - {c.ptr}, frees := s.frees + multiset{c.ptr})
  }

  /** The first response leaves the queue and is delivered as far as n bytes of its frame. */
  function Sent(s: State, fd: int, n: nat): State
    requires Log(s.queues, fd) != [] && n <= RESP_FRAME
  {
    var c := s.queues[fd][0];
    Delivered(s.(queues := s.queues[fd := s.queues[fd][1..]], taken := Extend(s.taken, fd, [c])), fd, c, n)
  }

  /** One round of the drain loop. The frame gets a single write call, and a short one ends its loop;
      writing to a closed descriptor fails. */
  function DrainOne(s: State, fd: int, w: WriteResult): State
    requires Log(s.queues, fd) != []
  {
    var result := if fd in s.open then w else Failed;
    var sent := Sent(s, fd, AcceptedBytes(result));
    if result == Failed then RmBadFd(sent, fd) else sent
  }

  function Drain(s: State, fd: int, writes: nat -> WriteResult, k: nat): State
    decreases |Log(s.queues, fd)|
  {
    if Log(s.queues, fd) == [] then s else Drain(DrainOne(s, fd, writes(k)), fd, writes, k + 1)
  }

  /** The write branch: drains the queue and takes the write interest back. */
  function Writable(s: State, ev: Event, writes: nat -> WriteResult): State {
    if ev.fd !in s.queues then s else
    var drained := Drain(s, ev.fd, writes, 0);
    if ev.fd in drained.interest then EpollMod(drained, ev.fd, ev.events - {OUT} + {IN})
    else RmBadFd(drained, ev.fd)
  }

  /** The read branch, if the event is about reading. */
  function ReadPart(s: State, ev: Event, input: Input, reply: VoteResp): (State, bool) {
    if IN in ev.events then Readable(s, ev, input, reply) else (s, true)
  }

  /** The read and the write branch of one round. */
  function HandlePeer(s: State, ev: Event, input: Input, io: Io): State {
    var (read, goOn) := ReadPart(s, ev, input, io.reply);
    if goOn && OUT in ev.events then Writable(read, ev, io.writes) else read
  }

  /** One round of the loop over the reported events, given what there is to read. */
  function HandleInput(s: State, ev: Event, input: Input, io: Io): State {
    if ERR in ev.events || HUP in ev.events || (IN !in ev.events && OUT !in ev.events) then RmBadFd(s, ev.fd)
    else if ev.fd == s.listenfd && IN in ev.events then AcceptAll(s, io.accepted)
    else if ev.fd == s.udpfd && IN in ev.events then s
    else HandlePeer(s, ev, input, io)
  }

  function Handle(s: State, ev: Event, io: Io): State
    requires Complete(Flatten(io.chunks))
  {
    HandleInput(s, ev, ReadInput(Flatten(io.chunks), io.end), io)
  }

  /** The server after its constructor. */
  function Init(listenfd: int, udpfd: int): State {
    State(listenfd, udpfd, map[], map[], map[listenfd := LISTEN_MASK, udpfd := LISTEN_MASK], {listenfd, udpfd},
          0, {}, multiset{}, map[], map[], map[], map[], [], [])
  }
}
