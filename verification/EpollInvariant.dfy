/** What every step of the server keeps. */
module EpollInvariant {
  import opened Bytes
  import opened Options
  import opened RequestVote
  import opened EpollModel

  /** The listening and the datagram socket keep their original interest, and nothing is ever
      queued for them. */
  ghost predicate Sockets(s: State) {
    && s.listenfd != s.udpfd
    && (forall fd :: fd == s.listenfd || fd == s.udpfd ==>
          && fd in s.open && fd in s.interest && s.interest[fd] == LISTEN_MASK
          && fd !in s.queues && fd !in s.clients)
  }

  /** Only open descriptors are watched; a peer has a queue, and so has every descriptor that is
      armed for writing. */
  ghost predicate Armed(s: State) {
    && s.interest.Keys <= s.open
    && s.clients.Keys <= s.queues.Keys
    && forall fd :: fd in s.interest && OUT in s.interest[fd] ==> fd in s.queues
  }

  /** The cell at a position of a queue. */
  ghost predicate At(queues: map<int, seq<Cell>>, fd: int, i: int, p: nat) {
    fd in queues && 0 <= i < |queues[fd]| && queues[fd][i].ptr == p
  }

  /** No two positions of the queues hold the same pointer. */
  ghost predicate Unshared(queues: map<int, seq<Cell>>) {
    forall f, i, g, j, p :: At(queues, f, i, p) && At(queues, g, j, p) ==> f == g && i == j
  }

  /** Exactly these pointers are queued. */
  ghost predicate Holds(queues: map<int, seq<Cell>>, ptrs: set<nat>) {
    && (forall f, i, p :: At(queues, f, i, p) ==> p in ptrs)
    && forall p :: p in ptrs ==> exists f, i :: At(queues, f, i, p)
  }

  /** Every allocation made so far has either been freed exactly once or is in exactly one queue,
      exactly once. */
  ghost predicate Owned(s: State) {
    && Unshared(s.queues) && Holds(s.queues, s.live)
    && (forall p :: p in s.live ==> p < s.mallocs)
    && forall p: nat :: s.frees[p] == if p < s.mallocs && p !in s.live then 1 else 0
  }

  /** On every descriptor, what the drain loop took and what is still queued are together what was
      enqueued, in this order. */
  ghost predicate Conserved(s: State) {
    forall fd :: Log(s.enqueued, fd) == Log(s.taken, fd) + Log(s.queues, fd)
  }

  /** The frames of some responses, each cut after the given number of bytes. */
  function CutFrames(cells: seq<Cell>, cuts: seq<nat>): seq<byte>
    requires |cells| == |cuts| && forall i :: 0 <= i < |cuts| ==> cuts[i] <= RESP_FRAME
  {
    if cells == [] then [] else
    var n := |cells| - 1;
    CutFrames(cells[..n], cuts[..n]) + RespFrame(cells[n].resp)[..cuts[n]]
  }

  /** The bytes are the frames of these responses in order, each cut after the given number. */
  predicate Stream(cells: seq<Cell>, cuts: seq<nat>, bytes: seq<byte>) {
    && |cuts| == |cells|
    && (forall i :: 0 <= i < |cuts| ==> cuts[i] <= RESP_FRAME)
    && bytes == CutFrames(cells, cuts)
  }

  /** The socket got the frames of the taken responses in order, of each one a beginning. */
  predicate StreamedOn(s: State, fd: int) {
    Stream(Log(s.taken, fd), Log(s.accepted, fd), Log(s.wire, fd))
  }

  ghost predicate Streamed(s: State) {
    forall fd :: StreamedOn(s, fd)
  }

  ghost predicate Inv(s: State) {
    Sockets(s) && Armed(s) && Owned(s) && Conserved(s) && Streamed(s)
  }

  lemma InitInv(listenfd: int, udpfd: int)
    requires listenfd != udpfd
    ensures Inv(Init(listenfd, udpfd))
  {
  }

  // ----- steps that only concern descriptors

  /** Same queues, allocator and history; only descriptors, interest and the calls into the election
      logic may differ. */
  predicate SameMemory(s: State, t: State) {
    && t.queues == s.queues && t.mallocs == s.mallocs && t.live == s.live && t.frees == s.frees
    && t.enqueued == s.enqueued && t.taken == s.taken && t.accepted == s.accepted && t.wire == s.wire
    && t.listenfd == s.listenfd && t.udpfd == s.udpfd && t.clients == s.clients
  }

  lemma EpollModSame(s: State, fd: int, mask: Mask)
    ensures SameMemory(s, EpollMod(s, fd, mask))
  {
  }

  lemma CloseFdSame(s: State, fd: int)
    ensures SameMemory(s, CloseFd(s, fd))
  {
  }

  lemma RmBadFdSame(s: State, fd: int)
    ensures SameMemory(s, RmBadFd(s, fd))
  {
    EpollModSame(s, fd, LISTEN_MASK);
    EpollModSame(s, fd, CLIENT_MASK);
    CloseFdSame(s, fd);
  }

  lemma EpollModThenFree(s: State, fd: int, mask: Mask, live: set<nat>, frees: multiset<nat>)
    ensures EpollMod(s, fd, mask).(live := live, frees := frees) == EpollMod(s.(live := live, frees := frees), fd, mask)
  {
  }

  lemma CloseFdThenFree(s: State, fd: int, live: set<nat>, frees: multiset<nat>)
    ensures CloseFd(s, fd).(live := live, frees := frees) == CloseFd(s.(live := live, frees := frees), fd)
  {
  }

  /** The allocator does not care about descriptors, nor the other way round. */
  lemma RmBadFdThenFree(s: State, fd: int, live: set<nat>, frees: multiset<nat>)
    ensures RmBadFd(s, fd).(live := live, frees := frees) == RmBadFd(s.(live := live, frees := frees), fd)
  {
    if fd == s.listenfd || fd == s.udpfd {
      EpollModThenFree(s, fd, LISTEN_MASK, live, frees);
    } else if fd in s.clients {
      EpollModThenFree(s, fd, CLIENT_MASK, live, frees);
    } else {
      CloseFdThenFree(s, fd, live, frees);
    }
  }

  lemma EpollModKeeps(s: State, fd: int, mask: Mask)
    requires Sockets(s) && Armed(s)
    requires fd == s.listenfd || fd == s.udpfd ==> mask == LISTEN_MASK
    requires OUT in mask ==> fd in s.queues
    ensures var t := EpollMod(s, fd, mask); SameMemory(s, t) && Sockets(t) && Armed(t)
  {
  }

  lemma CloseFdKeeps(s: State, fd: int)
    requires Sockets(s) && Armed(s) && fd != s.listenfd && fd != s.udpfd
    ensures var t := CloseFd(s, fd); SameMemory(s, t) && Sockets(t) && Armed(t)
  {
  }

  lemma RmBadFdKeeps(s: State, fd: int)
    requires Sockets(s) && Armed(s)
    ensures var t := RmBadFd(s, fd); SameMemory(s, t) && Sockets(t) && Armed(t)
  {
    if fd == s.listenfd || fd == s.udpfd {
      EpollModKeeps(s, fd, LISTEN_MASK);
    } else if fd in s.clients {
      EpollModKeeps(s, fd, CLIENT_MASK);
    } else {
      CloseFdKeeps(s, fd);
    }
  }

  lemma {:induction false} AcceptAllKeeps(s: State, fds: seq<int>)
    requires Sockets(s) && Armed(s) && Acceptable(s.open, fds)
    ensures var t := AcceptAll(s, fds); SameMemory(s, t) && Sockets(t) && Armed(t)
    decreases |fds|
  {
    if fds != [] {
      AcceptAllKeeps(s.(interest := s.interest[fds[0] := LISTEN_MASK], open := s.open + {fds[0]}), fds[1..]);
    }
  }

  lemma SameWire(s: State, t: State)
    requires Streamed(s) && t.taken == s.taken && t.accepted == s.accepted && t.wire == s.wire
    ensures Streamed(t)
  {
    forall fd
      ensures StreamedOn(t, fd)
    {
      assert StreamedOn(s, fd);
    }
  }

  lemma MemoryInv(s: State, t: State)
    requires Inv(s) && SameMemory(s, t) && Sockets(t) && Armed(t)
    ensures Inv(t)
  {
    SameWire(s, t);
  }

  // ----- steps on the queues

  lemma AddQueue(queues: map<int, seq<Cell>>, fd: int, ptrs: set<nat>)
    requires Unshared(queues) && Holds(queues, ptrs) && fd !in queues
    ensures var q := queues[fd := []]; Unshared(q) && Holds(q, ptrs)
  {
    var q := queues[fd := []];
    assert forall f, i, p :: At(q, f, i, p) <==> At(queues, f, i, p);
  }

  lemma PushQueue(queues: map<int, seq<Cell>>, fd: int, c: Cell, ptrs: set<nat>)
    requires Unshared(queues) && Holds(queues, ptrs) && c.ptr !in ptrs
    ensures var q := Extend(queues, fd, [c]); Unshared(q) && Holds(q, ptrs + {c.ptr})
  {
    var q := Extend(queues, fd, [c]);
    var n := |Log(queues, fd)|;
    assert At(q, fd, n, c.ptr);
    forall f, i, p
      ensures At(q, f, i, p) <==> At(queues, f, i, p) || (f == fd && i == n && p == c.ptr)
    {
    }
    forall p | p in ptrs
      ensures exists f, i :: At(q, f, i, p)
    {
      var f, i :| At(queues, f, i, p);
      assert At(q, f, i, p);
    }
  }

  lemma PopQueue(queues: map<int, seq<Cell>>, fd: int, ptrs: set<nat>)
    requires Unshared(queues) && Holds(queues, ptrs) && Log(queues, fd) != []
    ensures var q := queues[fd := queues[fd][1..]];
      Unshared(q) && queues[fd][0].ptr in ptrs && Holds(q, ptrs - {queues[fd][0].ptr})
  {
    var q, p0 := queues[fd := queues[fd][1..]], queues[fd][0].ptr;
    assert At(queues, fd, 0, p0);
    forall f, i, p, g, j | At(q, f, i, p) && At(q, g, j, p)
      ensures f == g && i == j
    {
      assert At(queues, f, if f == fd then i + 1 else i, p);
      assert At(queues, g, if g == fd then j + 1 else j, p);
    }
    forall f, i, p | At(q, f, i, p)
      ensures p in ptrs && p != p0
    {
      assert At(queues, f, if f == fd then i + 1 else i, p);
    }
    forall p | p in ptrs && p != p0
      ensures exists f, i :: At(q, f, i, p)
    {
      var f, i :| At(queues, f, i, p);
      assert At(q, f, if f == fd then i - 1 else i, p);
    }
  }

  lemma RegisterClientInv(s: State, node: int, fd: int, connected: bool, addSucceeds: bool)
    requires Inv(s) && fd !in s.open
    ensures Inv(RegisterClient(s, node, fd, connected, addSucceeds))
  {
    var t := RegisterClient(s, node, fd, connected, addSucceeds);
    if fd !in s.queues {
      AddQueue(s.queues, fd, s.live);
    }
    assert Sockets(t) && Armed(t);
    SameWire(s, t);
    assert forall f :: Log(t.queues, f) == Log(s.queues, f);
  }

  lemma PutRespConserved(s: State, fd: int, r: VoteResp)
    requires Conserved(s)
    ensures Conserved(PutResp(s, fd, r))
  {
    var t := PutResp(s, fd, r);
    forall f
      ensures Log(t.enqueued, f) == Log(t.taken, f) + Log(t.queues, f)
    {
      assert Log(s.enqueued, f) == Log(s.taken, f) + Log(s.queues, f);
    }
  }

  lemma PutRespInv(s: State, fd: int, r: VoteResp)
    requires Inv(s) && fd != s.listenfd && fd != s.udpfd
    ensures Inv(PutResp(s, fd, r))
  {
    PushQueue(s.queues, fd, Cell(s.mallocs, r), s.live);
    PutRespConserved(s, fd, r);
    SameWire(s, PutResp(s, fd, r));
  }

  lemma SentConserved(s: State, fd: int, n: nat)
    requires Log(s.queues, fd) != [] && n <= RESP_FRAME && Conserved(s)
    ensures Conserved(Sent(s, fd, n))
  {
    var t, c, rest := Sent(s, fd, n), s.queues[fd][0], s.queues[fd][1..];
    assert s.queues[fd] == [c] + rest;
    forall f
      ensures Log(t.enqueued, f) == Log(t.taken, f) + Log(t.queues, f)
    {
      assert Log(s.enqueued, f) == Log(s.taken, f) + Log(s.queues, f);
      LogOfExtend(s.taken, fd, [c], f);
      assert Log(t.queues, f) == if f == fd then rest else Log(s.queues, f);
    }
  }

  lemma StreamAppend(cells: seq<Cell>, cuts: seq<nat>, bytes: seq<byte>, c: Cell, n: nat)
    requires Stream(cells, cuts, bytes) && n <= RESP_FRAME
    ensures Stream(cells + [c], cuts + [n], bytes + RespFrame(c.resp)[..n])
  {
  }

  lemma SentStreamed(s: State, fd: int, n: nat)
    requires Log(s.queues, fd) != [] && n <= RESP_FRAME && Streamed(s)
    ensures Streamed(Sent(s, fd, n))
  {
    forall f
      ensures StreamedOn(Sent(s, fd, n), f)
    {
      SentStreamedOn(s, fd, n, f);
    }
  }

  lemma LogOfExtend<T>(m: map<int, seq<T>>, fd: int, xs: seq<T>, f: int)
    ensures Log(Extend(m, fd, xs), f) == if f == fd then Log(m, fd) + xs else Log(m, f)
  {
  }

  lemma SentStreamedOn(s: State, fd: int, n: nat, f: int)
    requires Log(s.queues, fd) != [] && n <= RESP_FRAME && StreamedOn(s, f)
    ensures StreamedOn(Sent(s, fd, n), f)
  {
    var c := s.queues[fd][0];
    LogOfExtend(s.taken, fd, [c], f);
    LogOfExtend(s.accepted, fd, [n], f);
    LogOfExtend(s.wire, fd, RespFrame(c.resp)[..n], f);
    if f == fd {
      StreamAppend(Log(s.taken, fd), Log(s.accepted, fd), Log(s.wire, fd), c, n);
    }
  }

  /** Freeing the front of a queue and taking it off. */
  lemma FreeFrontOwned(s: State, fd: int)
    requires Owned(s) && Log(s.queues, fd) != []
    ensures var p := s.queues[fd][0].ptr;
      && p in s.live
      && Owned(s.(queues := s.queues[fd := s.queues[fd][1..]], live := s.live - {p}, frees := s.frees + multiset{p}))
  {
    PopQueue(s.queues, fd, s.live);
  }

  lemma DropQueueOwned(s: State, fd: int)
    requires Owned(s) && fd in s.queues && s.queues[fd] == []
    ensures Owned(s.(queues := s.queues - {fd}))
  {
    var q := s.queues - {fd};
    assert forall f, i, p :: At(q, f, i, p) <==> At(s.queues, f, i, p);
  }

  lemma NoQueuesNothingLive(s: State)
    requires Owned(s) && s.queues.Keys == {}
    ensures s.queues == map[] && s.live == {}
  {
  }

  /** The pointers in a queue may be followed, and freed one after the other. */
  ghost predicate QueueLive(cells: seq<Cell>, live: set<nat>) {
    && (forall i :: 0 <= i < |cells| ==> cells[i].ptr in live)
    && forall i, j :: 0 <= i < j < |cells| ==> cells[i].ptr != cells[j].ptr
  }

  lemma OwnedQueueLive(s: State, fd: int)
    requires Owned(s)
    ensures QueueLive(Log(s.queues, fd), s.live)
  {
    forall i | 0 <= i < |Log(s.queues, fd)|
      ensures At(s.queues, fd, i, s.queues[fd][i].ptr)
    {
    }
  }

  lemma DrainOneQueueLive(s: State, fd: int, w: WriteResult)
    requires Log(s.queues, fd) != [] && QueueLive(Log(s.queues, fd), s.live)
    ensures var t := DrainOne(s, fd, w); Log(t.queues, fd) == s.queues[fd][1..] && QueueLive(Log(t.queues, fd), t.live)
  {
    RmBadFdSame(Sent(s, fd, AcceptedBytes(if fd in s.open then w else Failed)), fd);
  }

  lemma SentOwned(s: State, fd: int, n: nat)
    requires Log(s.queues, fd) != [] && n <= RESP_FRAME && Owned(s)
    ensures Owned(Sent(s, fd, n)) && s.queues[fd][0].ptr in s.live
  {
    PopQueue(s.queues, fd, s.live);
  }

  /** The drain loop frees only a block in use, and never the one of another cell. */
  lemma DrainOneInv(s: State, fd: int, w: WriteResult)
    requires Inv(s) && Log(s.queues, fd) != []
    ensures Inv(DrainOne(s, fd, w)) && s.queues[fd][0].ptr in s.live
  {
    var n := AcceptedBytes(if fd in s.open then w else Failed);
    SentConserved(s, fd, n);
    SentStreamed(s, fd, n);
    SentOwned(s, fd, n);
    var sent := Sent(s, fd, n);
    RmBadFdKeeps(sent, fd);
    MemoryInv(sent, DrainOne(s, fd, w));
  }

  lemma {:induction false} DrainInv(s: State, fd: int, writes: nat -> WriteResult, k: nat)
    requires Inv(s)
    ensures Inv(Drain(s, fd, writes, k))
    decreases |Log(s.queues, fd)|
  {
    if Log(s.queues, fd) != [] {
      DrainOneInv(s, fd, writes(k));
      DrainInv(DrainOne(s, fd, writes(k)), fd, writes, k + 1);
    }
  }

  /** What the kernel knows of a descriptor. */
  function View(s: State, fd: int): (bool, Option<Mask>) {
    (fd in s.open, if fd in s.interest then Some(s.interest[fd]) else None)
  }

  /** For the kernel, s and t differ at most on one descriptor. */
  ghost predicate OnlyOn(s: State, t: State, fd: int) {
    && t.listenfd == s.listenfd && t.udpfd == s.udpfd && t.clients == s.clients
    && forall f :: f != fd ==> View(t, f) == View(s, f)
  }

  lemma EpollModOnlyOn(s: State, fd: int, mask: Mask)
    ensures OnlyOn(s, EpollMod(s, fd, mask), fd)
  {
  }

  lemma CloseFdOnlyOn(s: State, fd: int)
    ensures OnlyOn(s, CloseFd(s, fd), fd)
  {
  }

  lemma RmBadFdOnlyOn(s: State, fd: int)
    ensures OnlyOn(s, RmBadFd(s, fd), fd) && RmBadFd(s, fd).queues == s.queues
  {
    if fd == s.listenfd || fd == s.udpfd {
      EpollModOnlyOn(s, fd, LISTEN_MASK);
    } else if fd in s.clients {
      EpollModOnlyOn(s, fd, CLIENT_MASK);
    } else {
      CloseFdOnlyOn(s, fd);
    }
  }

  lemma DrainOneOnlyOn(s: State, fd: int, w: WriteResult)
    requires Log(s.queues, fd) != []
    ensures OnlyOn(s, DrainOne(s, fd, w), fd)
  {
    var sent := Sent(s, fd, AcceptedBytes(if fd in s.open then w else Failed));
    assert forall f :: View(sent, f) == View(s, f);
    RmBadFdOnlyOn(sent, fd);
  }

  lemma {:induction false} DrainOnlyOn(s: State, fd: int, writes: nat -> WriteResult, k: nat)
    ensures OnlyOn(s, Drain(s, fd, writes, k), fd)
    decreases |Log(s.queues, fd)|
  {
    if Log(s.queues, fd) != [] {
      DrainOneOnlyOn(s, fd, writes(k));
      DrainOnlyOn(DrainOne(s, fd, writes(k)), fd, writes, k + 1);
    }
  }

  lemma DrainOneQueues(s: State, fd: int, w: WriteResult)
    requires Log(s.queues, fd) != []
    ensures DrainOne(s, fd, w).queues == s.queues[fd := s.queues[fd][1..]]
  {
    RmBadFdOnlyOn(Sent(s, fd, AcceptedBytes(if fd in s.open then w else Failed)), fd);
  }

  /** The drain loop leaves its queue empty, even after write errors, and the other ones alone. */
  lemma {:induction false} DrainEmpties(s: State, fd: int, writes: nat -> WriteResult, k: nat)
    ensures Drain(s, fd, writes, k).queues == if fd in s.queues then s.queues[fd := []] else s.queues
    decreases |Log(s.queues, fd)|
  {
    if Log(s.queues, fd) != [] {
      DrainOneQueues(s, fd, writes(k));
      DrainEmpties(DrainOne(s, fd, writes(k)), fd, writes, k + 1);
    }
  }

  lemma {:induction false} DrainTakes(s: State, fd: int, writes: nat -> WriteResult, k: nat)
    ensures Log(Drain(s, fd, writes, k).taken, fd) == Log(s.taken, fd) + Log(s.queues, fd)
    decreases |Log(s.queues, fd)|
  {
    if Log(s.queues, fd) != [] {
      var c, next := s.queues[fd][0], DrainOne(s, fd, writes(k));
      DrainOneTakes(s, fd, writes(k));
      DrainOneQueues(s, fd, writes(k));
      DrainTakes(next, fd, writes, k + 1);
      assert s.queues[fd] == [c] + Log(next.queues, fd);
    }
  }

  lemma DrainOneTakes(s: State, fd: int, w: WriteResult)
    requires Log(s.queues, fd) != []
    ensures Log(DrainOne(s, fd, w).taken, fd) == Log(s.taken, fd) + [s.queues[fd][0]]
  {
    RmBadFdSame(Sent(s, fd, AcceptedBytes(if fd in s.open then w else Failed)), fd);
  }

  // ----- events

  /** Write interest is armed before the response is in the queue; the two updates commute. */
  lemma ArmThenPut(s: State, fd: int, mask: Mask, reply: VoteResp)
    ensures PutResp(EpollMod(s, fd, mask), fd, reply) == EpollMod(PutResp(s, fd, reply), fd, mask)
  {
  }

  lemma ReadRequestInv(s: State, fd: int, mask: Mask, request: VoteReq, reply: VoteResp)
    requires Inv(s) && fd != s.listenfd && fd != s.udpfd
    ensures Inv(PutResp(EpollMod(s, fd, mask).(requests := s.requests + [request]), fd, reply))
  {
    var called := s.(requests := s.requests + [request]);
    MemoryInv(s, called);
    PutRespInv(called, fd, reply);
    var put := PutResp(called, fd, reply);
    EpollModKeeps(put, fd, mask);
    MemoryInv(put, EpollMod(put, fd, mask));
    ArmThenPut(called, fd, mask, reply);
  }

  lemma ReadableInv(s: State, ev: Event, input: Input, reply: VoteResp)
    requires Inv(s) && ev.fd != s.listenfd && ev.fd != s.udpfd
    ensures Inv(Readable(s, ev, input, reply).0)
  {
    match input
    case Broken =>
      RmBadFdKeeps(s, ev.fd);
      MemoryInv(s, RmBadFd(s, ev.fd));
    case Short =>
    case Request(q) =>
      ReadRequestInv(s, ev.fd, ev.events + {OUT}, q, reply);
      RmBadFdKeeps(s, ev.fd);
      MemoryInv(s, RmBadFd(s, ev.fd));
    case Response(r) =>
      MemoryInv(s, s.(votes := s.votes + [r]));
    case Other =>
  }

  lemma WritableInv(s: State, ev: Event, writes: nat -> WriteResult)
    requires Inv(s) && ev.fd != s.listenfd && ev.fd != s.udpfd
    ensures Inv(Writable(s, ev, writes))
  {
    if ev.fd in s.queues {
      var drained := Drain(s, ev.fd, writes, 0);
      DrainInv(s, ev.fd, writes, 0);
      DrainEmpties(s, ev.fd, writes, 0);
      DrainOnlyOn(s, ev.fd, writes, 0);
      if ev.fd in drained.interest {
        EpollModKeeps(drained, ev.fd, ev.events - {OUT} + {IN});
      } else {
        RmBadFdKeeps(drained, ev.fd);
      }
      MemoryInv(drained, Writable(s, ev, writes));
    }
  }

  lemma ReadPartInv(s: State, ev: Event, input: Input, reply: VoteResp)
    requires Inv(s) && ev.fd != s.listenfd && ev.fd != s.udpfd
    ensures Inv(ReadPart(s, ev, input, reply).0)
    ensures var t := ReadPart(s, ev, input, reply).0; t.listenfd == s.listenfd && t.udpfd == s.udpfd
  {
    ReadableInv(s, ev, input, reply);
    RmBadFdSame(s, ev.fd);
  }

  lemma ReadQueueLive(s: State, ev: Event, input: Input, reply: VoteResp)
    requires Inv(s) && ev.fd != s.listenfd && ev.fd != s.udpfd
    ensures var t := ReadPart(s, ev, input, reply).0; QueueLive(Log(t.queues, ev.fd), t.live)
  {
    ReadPartInv(s, ev, input, reply);
    OwnedQueueLive(ReadPart(s, ev, input, reply).0, ev.fd);
  }

  /** Events on the two own sockets never get to the read and write branches. */
  lemma OwnSocketEvents(s: State, ev: Event)
    requires Inv(s) && Reportable(s, ev)
    ensures ev.fd == s.listenfd || ev.fd == s.udpfd ==> OUT !in ev.events
  {
  }

  lemma HandlePeerInv(s: State, ev: Event, input: Input, io: Io)
    requires Inv(s) && ev.fd != s.listenfd && ev.fd != s.udpfd
    ensures Inv(HandlePeer(s, ev, input, io))
  {
    ReadPartInv(s, ev, input, io.reply);
    WritableInv(ReadPart(s, ev, input, io.reply).0, ev, io.writes);
  }

  lemma HandleInputInv(s: State, ev: Event, input: Input, io: Io)
    requires Inv(s) && Reportable(s, ev) && Acceptable(s.open, io.accepted)
    ensures Inv(HandleInput(s, ev, input, io))
  {
    var t := HandleInput(s, ev, input, io);
    if ERR in ev.events || HUP in ev.events || (IN !in ev.events && OUT !in ev.events) {
      RmBadFdKeeps(s, ev.fd);
      MemoryInv(s, t);
    } else if ev.fd == s.listenfd {
      AcceptAllKeeps(s, io.accepted);
      MemoryInv(s, t);
    } else if ev.fd != s.udpfd {
      HandlePeerInv(s, ev, input, io);
    }
  }

  /** Everything the server does on one reported event keeps the invariant. */
  lemma HandleInv(s: State, ev: Event, io: Io)
    requires Inv(s) && Reportable(s, ev) && Possible(s, io)
    ensures Inv(Handle(s, ev, io))
  {
    HandleInputInv(s, ev, ReadInput(Flatten(io.chunks), io.end), io);
  }
}
