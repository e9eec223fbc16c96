/** The server object: the fields the event loop updates in place, and its methods, each proved
    against the state machine. */
module EpollServer {
  import opened Bytes
  import opened DataProtocal
  import opened RequestVote
  import opened SharedQueues
  import opened EpollModel
  import opened EpollInvariant
  import opened EpollRuns

  type RespQueue = SharedQueue<Cell>

  class ProtocalServerEpoll {
    const listenfd: int
    const udpfd: int
    var clientmap: map<int, int>
    var respMessageMap: map<int, RespQueue>
    /** The contents of the queues, and the queue objects. */
    ghost var queues: map<int, seq<Cell>>
    ghost var queueObjects: set<RespQueue>
    const recvbuffer: array<byte>
    var msgsize: nat
    var writesize: int
    // the kernel's side
    var interest: map<int, Mask>
    var open: set<int>
    // the allocator's side
    var mallocs: nat
    ghost var live: set<nat>
    ghost var frees: multiset<nat>
    // history
    ghost var enqueued: map<int, seq<Cell>>
    ghost var taken: map<int, seq<Cell>>
    ghost var accepted: map<int, seq<nat>>
    ghost var wire: map<int, seq<byte>>
    ghost var requests: seq<VoteReq>
    ghost var votes: seq<VoteResp>

    /** No two descriptors share a queue object, and `queues` shows what is in them. */
    ghost predicate Valid()
      reads this`respMessageMap, this`queues, this`queueObjects, queueObjects
    {
      && recvbuffer.Length == BUFSIZE
      && queues.Keys == respMessageMap.Keys
      && (forall f :: f in respMessageMap ==> respMessageMap[f] in queueObjects && respMessageMap[f].items == queues[f])
      && forall f, g :: f in respMessageMap && g in respMessageMap && respMessageMap[f] == respMessageMap[g] ==> f == g
    }

    ghost function Abs(): State
      reads this
    {
      State(listenfd, udpfd, clientmap, queues, interest, open, mallocs, live, frees,
            enqueued, taken, accepted, wire, requests, votes)
    }

    constructor (listenfd: int, udpfd: int)
      requires listenfd != udpfd
      ensures Valid() && fresh(recvbuffer) && recvbuffer.Length == 4096 && queueObjects == {}
      ensures Abs() == Init(listenfd, udpfd)
    {
      this.listenfd, this.udpfd := listenfd, udpfd;
      clientmap, respMessageMap, queues, queueObjects := map[], map[], map[], {};
      recvbuffer := new byte[BUFSIZE];
      msgsize, writesize := 0, 0;
      interest := map[listenfd := LISTEN_MASK, udpfd := LISTEN_MASK];
      open := {listenfd, udpfd};
      mallocs, live, frees := 0, {}, multiset{};
      enqueued, taken, accepted, wire := map[], map[], map[], map[];
      requests, votes := [], [];
    }

    // ----- the kernel

    method EpollCtlMod(fd: int, mask: Mask) returns (r: int)
      modifies this`interest
      ensures Abs() == EpollMod(old(Abs()), fd, mask)
      ensures r == if fd in old(interest) then 0 else -1
    {
      if fd in interest {
        interest := interest[fd := mask];
        return 0;
      }
      r := -1;
    }

    method EpollCtlDelAndClose(fd: int)
      modifies this`interest, this`open
      ensures Abs() == CloseFd(old(Abs()), fd)
    {
      interest := interest - {fd};
      open := open - {fd};
    }

    // ----- the server's methods

    method RmBadFd(badfd: int)
      modifies this`interest, this`open
      ensures Abs() == EpollModel.RmBadFd(old(Abs()), badfd)
    {
      if badfd == listenfd {
        var _ := EpollCtlMod(listenfd, LISTEN_MASK);
        return;
      } else if badfd == udpfd {
        var _ := EpollCtlMod(udpfd, LISTEN_MASK);
        return;
      }
      if badfd in clientmap {
        ModClientEpollEvent(badfd);
        return;
      }
      EpollCtlDelAndClose(badfd);
    }

    method ModClientEpollEvent(connfd: int)
      modifies this`interest
      ensures Abs() == EpollMod(old(Abs()), connfd, CLIENT_MASK)
    {
      var _ := EpollCtlMod(connfd, CLIENT_MASK);
    }

    method RegEpollResponse(events: Mask, triggeredFd: int) returns (ok: bool)
      modifies this`interest, this`open
      ensures ok == (triggeredFd in old(interest))
      ensures Abs() == if ok then EpollMod(old(Abs()), triggeredFd, events + {OUT})
                       else EpollModel.RmBadFd(old(Abs()), triggeredFd)
    {
      var r := EpollCtlMod(triggeredFd, events + {OUT});
      if r == -1 {
        RmBadFd(triggeredFd);
        return false;
      }
      ok := true;
    }

    method PushBackTo(fd: int, voteResp: Cell)
      requires Valid() && fd in respMessageMap
      modifies this`queues, queueObjects
      ensures Valid()
      ensures Abs() == var s := old(Abs()); s.(queues := Extend(s.queues, fd, [voteResp]))
    {
      respMessageMap[fd].PushBack(voteResp);
      queues := queues[fd := queues[fd] + [voteResp]];
    }

    method InsertQueue(fd: int, queue: RespQueue)
      requires Valid() && fd !in respMessageMap && queue !in queueObjects
      modifies this`respMessageMap, this`queues, this`queueObjects
      ensures Valid() && queueObjects == old(queueObjects) + {queue}
      ensures Abs() == var s := old(Abs()); s.(queues := s.queues[fd := queue.items])
    {
      respMessageMap, queueObjects := respMessageMap[fd := queue], queueObjects + {queue};
      queues := queues[fd := queue.items];
    }

    /** A fresh queue under a new key, or an old queue with one more item. */
    method PutRespInQueue(triggeredFd: int, voteResp: Cell)
      requires Valid()
      modifies this`respMessageMap, this`queues, this`queueObjects, this`enqueued, queueObjects
      ensures Valid() && fresh(queueObjects - old(queueObjects))
      ensures Abs() == var s := old(Abs());
        s.(queues := Extend(s.queues, triggeredFd, [voteResp]), enqueued := Extend(s.enqueued, triggeredFd, [voteResp]))
    {
      if triggeredFd in respMessageMap {
        PushBackTo(triggeredFd, voteResp);
      } else {
        var queue := new SharedQueue.WithItem(voteResp);
        InsertQueue(triggeredFd, queue);
        assert [] + [voteResp] == [voteResp];
      }
      enqueued := Extend(enqueued, triggeredFd, [voteResp]);
    }

    /** An empty queue, if there is none yet. */
    method AddQueueFor(connfd: int)
      requires Valid()
      modifies this`respMessageMap, this`queues, this`queueObjects
      ensures Valid() && fresh(queueObjects - old(queueObjects))
      ensures Abs() == var s := old(Abs());
        s.(queues := if connfd in s.queues then s.queues else s.queues[connfd := []])
    {
      if connfd !in respMessageMap {
        var queue := new SharedQueue<Cell>();
        InsertQueue(connfd, queue);
      }
    }

    method AddClientEpollEvent(connfd: int, succeeds: bool)
      modifies this`interest
      ensures interest == if succeeds then old(interest)[connfd := CLIENT_MASK] else old(interest)
    {
      if succeeds {
        interest := interest[connfd := CLIENT_MASK];
      }
    }

    method RegisterClient(node: int, connfd: int, connected: bool, addSucceeds: bool)
      requires Valid()
      modifies this`clientmap, this`respMessageMap, this`queues, this`queueObjects, this`interest, this`open
      ensures Valid() && fresh(queueObjects - old(queueObjects))
      ensures Abs() == EpollModel.RegisterClient(old(Abs()), node, connfd, connected, addSucceeds)
    {
      if connected {
        open := open + {connfd};
      }
      if connfd !in clientmap {
        clientmap := clientmap[connfd := node];
      }
      AddQueueFor(connfd);
      if connected {
        AddClientEpollEvent(connfd, addSucceeds);
      }
    }

    /** The accept loop; every descriptor gets read interest. */
    method AcceptAll(fds: seq<int>)
      modifies this`interest, this`open
      ensures Abs() == EpollModel.AcceptAll(old(Abs()), fds)
    {
      var i := 0;
      while i < |fds|
        invariant 0 <= i <= |fds|
        invariant EpollModel.AcceptAll(Abs(), fds[i..]) == EpollModel.AcceptAll(old(Abs()), fds)
      {
        var acceptedfd := fds[i];
        interest := interest[acceptedfd := LISTEN_MASK];
        open := open + {acceptedfd};
        assert fds[i..][1..] == fds[i + 1..];
        i := i + 1;
      }
    }

    /** The read loop: appends the chunks to the buffer, over whatever was left in it. */
    method ReadAll(chunks: seq<seq<byte>>)
      requires Valid() && |Flatten(chunks)| <= BUFSIZE
      modifies this`msgsize, recvbuffer
      ensures Valid() && msgsize == |Flatten(chunks)|
      ensures recvbuffer[..msgsize] == Flatten(chunks)
    {
      msgsize := 0;
      var i := 0;
      while i < |chunks|
        invariant 0 <= i <= |chunks| && msgsize <= BUFSIZE
        invariant recvbuffer[..msgsize] + Flatten(chunks[i..]) == Flatten(chunks)
      {
        assert chunks[i..][1..] == chunks[i + 1..];
        assert recvbuffer[..msgsize] + Flatten(chunks[i..])
            == recvbuffer[..msgsize] + chunks[i] + Flatten(chunks[i + 1..]);
        CopyInto(recvbuffer, msgsize, chunks[i]);
        msgsize := msgsize + |chunks[i]|;
        i := i + 1;
      }
    }

    /** The request part of the read branch. */
    method TakeRequest(events: Mask, triggeredFd: int, dataPacket: DataPacket, reply: VoteResp) returns (goOn: bool)
      requires Valid() && dataPacket.owned && VOTE_REQ_SIZE <= dataPacket.body.Length
      modifies this`interest, this`open, this`respMessageMap, this`queues, this`queueObjects
      modifies this`mallocs, this`live, this`enqueued, this`requests, queueObjects
      ensures Valid() && fresh(queueObjects - old(queueObjects))
      ensures goOn <==> triggeredFd in old(interest)
      ensures !goOn ==> Abs() == EpollModel.RmBadFd(old(Abs()), triggeredFd)
      ensures goOn ==> Abs() == var armed := EpollMod(old(Abs()), triggeredFd, events + {OUT});
        PutResp(armed.(requests := armed.requests + [DecodeVoteReq(old(dataPacket.body[..]))]), triggeredFd, reply)
    {
      goOn := RegEpollResponse(events, triggeredFd);
      if !goOn {
        return;
      }
      var deVoteReq := DecompressVoteReq(dataPacket);
      QueueReply(triggeredFd, deVoteReq, reply);
    }

    /** Allocates the response the election logic fills in, and queues it. */
    method QueueReply(triggeredFd: int, request: VoteReq, reply: VoteResp)
      requires Valid()
      modifies this`respMessageMap, this`queues, this`queueObjects
      modifies this`mallocs, this`live, this`enqueued, this`requests, queueObjects
      ensures Valid() && fresh(queueObjects - old(queueObjects))
      ensures Abs() == var s := old(Abs()); PutResp(s.(requests := s.requests + [request]), triggeredFd, reply)
    {
      var voteResp := Cell(mallocs, reply);
      mallocs, live, requests := mallocs + 1, live + {voteResp.ptr}, requests + [request];
      PutRespInQueue(triggeredFd, voteResp);
    }

    /** Unframes the received bytes where they lie in the buffer. */
    method Unpack() returns (dataPacket: DataPacket)
      requires FRAME_HEADER <= msgsize <= recvbuffer.Length == BUFSIZE
      ensures fresh(dataPacket) && dataPacket.owned
      ensures Unframed(dataPacket.msgtype, dataPacket.length, dataPacket.body[..]) == Unframe(recvbuffer[..msgsize])
    {
      var messagePacket := new MessagePacket(msgsize, recvbuffer);
      dataPacket := new DataPacket();
      DecompressDataPacket(messagePacket, dataPacket);
    }

    /** The read branch; false when the rest of the event is skipped. */
    method Readable(ev: Event, io: Io) returns (goOn: bool)
      requires Valid() && Possible(Abs(), io)
      modifies this, recvbuffer, queueObjects
      ensures Valid() && fresh(queueObjects - old(queueObjects))
      ensures (Abs(), goOn) == EpollModel.Readable(old(Abs()), ev, ReadInput(Flatten(io.chunks), io.end), io.reply)
    {
      ReadAll(io.chunks);
      if io.end == ReadFailed {
        RmBadFd(ev.fd);
        return false;
      }
      if msgsize == 0 {
        RmBadFd(ev.fd);
        return false;
      }
      if msgsize < VOTE_RESP_SIZE && msgsize < VOTE_REQ_SIZE {
        return false;
      }
      var dataPacket := Unpack();
      ghost var u := Unframe(Flatten(io.chunks));
      assert dataPacket.msgtype == u.msgtype && dataPacket.body.Length == |u.body|;
      goOn := TakeMessage(ev, dataPacket, io.reply);
    }

    /** The read branch behind the decoding of the frame. */
    method TakeMessage(ev: Event, dataPacket: DataPacket, reply: VoteResp) returns (goOn: bool)
      requires Valid() && dataPacket.owned
      requires dataPacket.msgtype == REQUEST_VOTE_REQUEST ==> VOTE_REQ_SIZE <= dataPacket.body.Length
      requires dataPacket.msgtype == REQUEST_VOTE_RESPONSE ==> VOTE_RESP_SIZE <= dataPacket.body.Length
      modifies this, queueObjects
      ensures Valid() && fresh(queueObjects - old(queueObjects))
      ensures (Abs(), goOn) == EpollModel.Readable(old(Abs()), ev,
                MessageInput(old(Unframed(dataPacket.msgtype, dataPacket.length, dataPacket.body[..]))), reply)
    {
      goOn := true;
      if dataPacket.msgtype == REQUEST_VOTE_REQUEST {
        goOn := TakeRequest(ev.events, ev.fd, dataPacket, reply);
      } else if dataPacket.msgtype == REQUEST_VOTE_RESPONSE {
        var deVoteResp := DecompressVoteResp(dataPacket);
        votes := votes + [deVoteResp];
      }
    }

    /** A write call: the socket takes a beginning of the data, or the call fails. */
    method Write(fd: int, data: seq<byte>, result: WriteResult) returns (nwrite: int, tryAgain: bool)
      requires result.Accepted? ==> result.n <= |data|
      modifies this`wire
      ensures fd in open && result.Accepted? ==> nwrite == result.n
      ensures !(fd in open && result.Accepted?) ==> nwrite == -1
      ensures tryAgain <==> fd in open && result == Again
      ensures wire == Extend(old(wire), fd, data[..if nwrite == -1 then 0 else nwrite])
    {
      tryAgain := fd in open && result == Again;
      nwrite := if fd in open && result.Accepted? then result.n else -1;
      wire := Extend(wire, fd, data[..if nwrite == -1 then 0 else nwrite]);
    }

    /** The loop that writes one frame. It is left after the first call: either the call took
      everything, or it fell short and the rest is given up. */
    method WriteFrame(fd: int, body: array<byte>, writes: nat -> WriteResult, k: nat) returns (calls: nat)
      requires body.Length == RESP_FRAME
      requires forall i :: writes(i).Accepted? ==> writes(i).n <= RESP_FRAME
      modifies this`wire, this`interest, this`open, this`writesize
      ensures calls == 1
      ensures var result := if fd in old(open) then writes(k) else Failed;
        var s := old(Abs());
        var sent := s.(wire := Extend(s.wire, fd, old(body[..])[..AcceptedBytes(result)]));
        Abs() == if result == Failed then EpollModel.RmBadFd(sent, fd) else sent
    {
      var datasize := body.Length;
      writesize := datasize;
      calls := 0;
      ghost var frame := body[..];
      assert frame[..RESP_FRAME] == frame;
      while writesize > 0
        invariant 0 <= writesize <= datasize
        invariant calls == 0 ==> writesize == datasize && Abs() == old(Abs())
        invariant calls != 0 ==> calls == 1 && writesize == 0 && fd in old(open) && writes(k) == Accepted(RESP_FRAME)
        invariant calls != 0 ==> Abs() == var s := old(Abs()); s.(wire := Extend(s.wire, fd, frame))
        decreases writesize
      {
        assert body[datasize - writesize..] == frame;
        var nwrite, tryAgain := Write(fd, body[datasize - writesize..], writes(k + calls));
        calls := calls + 1;
        if nwrite < writesize {
          if nwrite == -1 && !tryAgain {
            RmBadFd(fd);
          }
          break;
        }
        writesize := writesize - nwrite;
      }
    }

    method PopFrontOf(fd: int) returns (c: Cell)
      requires Valid() && Log(queues, fd) != []
      modifies this`queues, queueObjects
      ensures Valid() && c == old(queues)[fd][0]
      ensures Abs() == var s := old(Abs()); s.(queues := s.queues[fd := s.queues[fd][1..]])
    {
      var respQueue := respMessageMap[fd];
      var front := respQueue.Front();
      c := front.value;
      respQueue.PopFront();
      queues := queues[fd := queues[fd][1..]];
    }

    /** Takes the first response off a queue to send it. */
    method TakeFront(fd: int) returns (voteRespMsg: Cell)
      requires Valid() && Log(queues, fd) != []
      modifies this`queues, this`taken, queueObjects
      ensures Valid() && voteRespMsg == old(queues)[fd][0]
      ensures Abs() == var s := old(Abs());
        s.(queues := s.queues[fd := s.queues[fd][1..]], taken := Extend(s.taken, fd, [voteRespMsg]))
    {
      voteRespMsg := PopFrontOf(fd);
      taken := Extend(taken, fd, [voteRespMsg]);
    }

    method Free(p: nat)
      requires p in live
      modifies this`live, this`frees
      ensures live == old(live) - {p} && frees == old(frees) + multiset{p}
    {
      live := live - {p};
      frees := frees + multiset{p};
    }

    /** Serializes and frames a response. */
    method FrameResp(r: VoteResp) returns (messagePacketResp: MessagePacket)
      ensures fresh(messagePacketResp) && messagePacketResp.body[..] == RespFrame(r)
    {
      var dataPacketResp := new DataPacket();
      dataPacketResp.msgtype := REQUEST_VOTE_RESPONSE;
      CompressVoteResp(r, dataPacketResp);
      messagePacketResp := new MessagePacket(0, dataPacketResp.body);
      CompressDataPacket(dataPacketResp, messagePacketResp);
    }

    /** Writes the frame of a response and frees it. */
    method Deliver(fd: int, c: Cell, writes: nat -> WriteResult, k: nat)
      requires c.ptr in live
      requires forall i :: writes(i).Accepted? ==> writes(i).n <= RESP_FRAME
      modifies this`accepted, this`wire, this`interest, this`open, this`writesize, this`live, this`frees
      ensures var result := if fd in old(open) then writes(k) else Failed;
        var delivered := Delivered(old(Abs()), fd, c, AcceptedBytes(result));
        Abs() == if result == Failed then EpollModel.RmBadFd(delivered, fd) else delivered
    {
      ghost var result := if fd in open then writes(k) else Failed;
      accepted := Extend(accepted, fd, [AcceptedBytes(result)]);
      var messagePacketResp := FrameResp(c.resp);
      ghost var s := Abs();
      var _ := WriteFrame(fd, messagePacketResp.body, writes, k);
      Free(c.ptr);
      RmBadFdThenFree(s.(wire := Extend(s.wire, fd, RespFrame(c.resp)[..AcceptedBytes(result)])), fd, live, frees);
    }

    /** One round of the drain loop: takes the first response, writes its frame and frees it. */
    method SendFront(fd: int, writes: nat -> WriteResult, k: nat)
      requires Valid() && Log(queues, fd) != [] && queues[fd][0].ptr in live
      requires forall i :: writes(i).Accepted? ==> writes(i).n <= RESP_FRAME
      modifies this`queues, this`taken, this`accepted, this`wire, this`interest, this`open, this`writesize
      modifies this`live, this`frees, queueObjects
      ensures Valid()
      ensures Abs() == DrainOne(old(Abs()), fd, writes(k))
    {
      var voteRespMsg := TakeFront(fd);
      Deliver(fd, voteRespMsg, writes, k);
    }

    /** The drain loop. */
    method DrainQueue(fd: int, writes: nat -> WriteResult)
      requires Valid() && fd in respMessageMap && QueueLive(Log(queues, fd), live)
      requires forall i :: writes(i).Accepted? ==> writes(i).n <= RESP_FRAME
      modifies this`queues, this`taken, this`accepted, this`wire, this`interest, this`open, this`writesize
      modifies this`live, this`frees, queueObjects
      ensures Valid()
      ensures Abs() == Drain(old(Abs()), fd, writes, 0)
    {
      var k := 0;
      var respQueue := respMessageMap[fd];
      var done := respQueue.Empty();
      while !done
        invariant Valid() && QueueLive(Log(queues, fd), live)
        invariant done <==> Log(queues, fd) == []
        invariant Drain(Abs(), fd, writes, k) == Drain(old(Abs()), fd, writes, 0)
        decreases |Log(queues, fd)|
      {
        DrainOneQueueLive(Abs(), fd, writes(k));
        SendFront(fd, writes, k);
        k := k + 1;
        done := respQueue.Empty();
      }
    }

    /** The write branch. */
    method Writable(ev: Event, writes: nat -> WriteResult)
      requires Valid() && QueueLive(Log(queues, ev.fd), live)
      requires forall i :: writes(i).Accepted? ==> writes(i).n <= RESP_FRAME
      modifies this`queues, this`taken, this`accepted, this`wire, this`interest, this`open, this`writesize
      modifies this`live, this`frees, queueObjects
      ensures Valid()
      ensures Abs() == EpollModel.Writable(old(Abs()), ev, writes)
    {
      if ev.fd !in respMessageMap {
        return;
      }
      DrainQueue(ev.fd, writes);
      var r := EpollCtlMod(ev.fd, ev.events - {OUT} + {IN});
      if r == -1 {
        RmBadFd(ev.fd);
      }
    }

    /** A datagram lands in the shared buffer and is answered; no state of the server depends on it. */
    method ReceiveDatagram(datagram: seq<byte>)
      requires Valid() && |datagram| <= BUFSIZE
      modifies this`msgsize, recvbuffer
      ensures Valid()
    {
      CopyInto(recvbuffer, 0, datagram);
      msgsize := |datagram|;
    }

    /** The read and the write branch of one round. */
    method HandlePeer(ev: Event, io: Io)
      requires Valid() && Inv(Abs()) && ev.fd != listenfd && ev.fd != udpfd && Possible(Abs(), io)
      modifies this, recvbuffer, queueObjects
      ensures Valid() && fresh(queueObjects - old(queueObjects))
      ensures Abs() == EpollModel.HandlePeer(old(Abs()), ev, ReadInput(Flatten(io.chunks), io.end), io)
    {
      ReadQueueLive(Abs(), ev, ReadInput(Flatten(io.chunks), io.end), io.reply);
      var goOn := true;
      if IN in ev.events {
        goOn := Readable(ev, io);
      }
      if goOn && OUT in ev.events {
        Writable(ev, io.writes);
      }
    }

    /** One round of the loop over the reported events. Its effect is a function of the state, the
      event and what happens while it is handled: whatever earlier events left in the receive buffer
      has no part in it. */
    method HandleEvent(ev: Event, io: Io)
      requires Valid() && Inv(Abs()) && Reportable(Abs(), ev) && Possible(Abs(), io)
      modifies this, recvbuffer, queueObjects
      ensures Valid() && fresh(queueObjects - old(queueObjects))
      ensures Abs() == Handle(old(Abs()), ev, io)
    {
      if ERR in ev.events || HUP in ev.events || (IN !in ev.events && OUT !in ev.events) {
        RmBadFd(ev.fd);
      } else if ev.fd == listenfd && IN in ev.events {
        AcceptAll(io.accepted);
      } else if ev.fd == udpfd && IN in ev.events {
        ReceiveDatagram(io.datagram);
      } else {
        OwnSocketEvents(Abs(), ev);
        HandlePeer(ev, io);
      }
    }

    /** One turn of the event loop: the buffer is cleared once, then the events of one wait are
      handled in their order. */
    method ServeBatch(events: seq<Event>, ios: seq<Io>)
      requires Valid() && Inv(Abs()) && Reported(Abs(), events) && BatchOk(Abs(), events, ios)
      modifies this, recvbuffer, queueObjects
      ensures Valid() && fresh(queueObjects - old(queueObjects)) && Inv(Abs())
      ensures Abs() == HandleAll(old(Abs()), events, ios)
    {
      forall i | 0 <= i < BUFSIZE {
        recvbuffer[i] := 0;
      }
      var i := 0;
      while i < |events|
        invariant 0 <= i <= |events|
        invariant Valid() && fresh(queueObjects - old(queueObjects)) && Inv(Abs())
        invariant Reported(Abs(), events[i..]) && BatchOk(Abs(), events[i..], ios[i..])
        invariant HandleAll(Abs(), events[i..], ios[i..]) == HandleAll(old(Abs()), events, ios)
      {
        PendingStaysReported(Abs(), events[i..], ios[i]);
        HandleInv(Abs(), events[i], ios[i]);
        assert events[i..][1..] == events[i + 1..] && ios[i..][1..] == ios[i + 1..];
        HandleEvent(events[i], ios[i]);
        i := i + 1;
      }
    }

    method FreeFront(fd: int)
      requires Valid() && Owned(Abs()) && Log(queues, fd) != []
      modifies this`queues, this`live, this`frees, queueObjects
      ensures Valid() && Owned(Abs()) && queues == old(queues)[fd := old(queues)[fd][1..]]
      ensures frees + multiset(live) == old(frees) + multiset(old(live))
    {
      FreeFrontOwned(Abs(), fd);
      var resp := PopFrontOf(fd);
      Free(resp.ptr);
    }

    method DeleteQueue(fd: int)
      requires Valid() && Owned(Abs()) && fd in queues && queues[fd] == []
      modifies this`queues, this`respMessageMap
      ensures Valid() && Owned(Abs()) && respMessageMap == old(respMessageMap) - {fd}
    {
      DropQueueOwned(Abs(), fd);
      respMessageMap, queues := respMessageMap - {fd}, queues - {fd};
    }

    /** Frees everything in one queue, then deletes the queue. */
    method FreeQueue(fd: int)
      requires Valid() && Owned(Abs()) && fd in respMessageMap
      modifies this`queues, this`respMessageMap, this`live, this`frees, queueObjects
      ensures Valid() && Owned(Abs()) && respMessageMap == old(respMessageMap) - {fd}
      ensures respMessageMap.Keys == old(respMessageMap.Keys) - {fd}
      ensures frees + multiset(live) == old(frees) + multiset(old(live))
    {
      var respQueue := respMessageMap[fd];
      var done := respQueue.Empty();
      while !done
        invariant Valid() && Owned(Abs()) && respMessageMap == old(respMessageMap)
        invariant done <==> queues[fd] == []
        invariant frees + multiset(live) == old(frees) + multiset(old(live))
        decreases |queues[fd]|
      {
        FreeFront(fd);
        done := respQueue.Empty();
      }
      DeleteQueue(fd);
    }

    static method NextKey(keys: set<int>) returns (fd: int)
      requires keys != {}
      ensures fd in keys
    {
      assert (forall f :: f !in keys) ==> keys == {};
      fd :| fd in keys;
    }

    method FreeQueues()
      requires Valid() && Owned(Abs())
      modifies this`queues, this`respMessageMap, this`live, this`frees, queueObjects
      ensures queues == map[] && live == {}
      ensures frees == old(frees) + multiset(old(live))
    {
      while respMessageMap.Keys != {}
        invariant Valid() && Owned(Abs())
        invariant frees + multiset(live) == old(frees) + multiset(old(live))
        decreases |respMessageMap.Keys|
      {
        var fd := NextKey(respMessageMap.Keys);
        FreeQueue(fd);
      }
      NoQueuesNothingLive(Abs());
    }

    /** The destructor: closes the two sockets, frees what is in the queues and deletes them. */
    method Destroy()
      requires Valid() && Owned(Abs())
      modifies this, queueObjects
      ensures Abs() == EpollRuns.Destroy(old(Abs()))
    {
      open, interest := open - {listenfd, udpfd}, interest - {listenfd, udpfd};
      FreeQueues();
    }
  }
}
