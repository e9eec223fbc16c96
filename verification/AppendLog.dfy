/** The append request as the program holds it, a doubly linked list of heap nodes with their own
    key and value buffers, and the two loops that flatten it into a packet and rebuild it. */
module AppendLog {
  import opened Bytes
  import opened DataProtocal
  import opened AppendLogFormat
  import opened Options

  class LogEntry {
    var keySize: uint16
    var key: array<byte>
    var valSize: uint16
    var value: array<byte>
    var next: LogEntry?
    var previous: LogEntry?

    constructor ()
      ensures next == null && previous == null
      ensures fresh(key) && fresh(value)
    {
      keySize, key := 0, new byte[0];
      valSize, value := 0, new byte[0];
      next, previous := null, null;
    }

    ghost predicate Valid()
      reads this
    {
      keySize <= key.Length && valSize <= value.Length
    }

    ghost function Content(): (e: Entry)
      requires Valid()
      reads this, key, value
    {
      Entry(key[..keySize], value[..valSize])
    }
  }

  class LogEntries {
    var length: uint16
    var memSize: uint16
    var start: LogEntry?

    constructor ()
      ensures start == null
    {
      length, memSize, start := 0, 0, null;
    }
  }

  class AppendLogReq {
    var term: uint64
    var leaderId: uint16
    var prevLogTerm: uint64
    var prevLogIndex: uint64
    var leaderCommitIndex: uint64
    var logEntries: LogEntries

    constructor (logEntries: LogEntries)
      ensures this.logEntries == logEntries
    {
      term, leaderId, prevLogTerm, prevLogIndex, leaderCommitIndex := 0, 0, 0, 0, 0;
      this.logEntries := logEntries;
    }

    ghost function HeaderOf(): Header
      reads this, logEntries
    {
      Header(term, leaderId, prevLogTerm, prevLogIndex, leaderCommitIndex, logEntries.length, logEntries.memSize)
    }
  }

  /** The nodes reached from start through the next links, up to the null link. */
  ghost predicate Chain(start: LogEntry?, nodes: seq<LogEntry>)
    reads nodes`next
  {
    if nodes == [] then start == null else
      && start == nodes[0]
      && (forall i {:trigger nodes[i].next} :: 0 <= i < |nodes| - 1 ==> nodes[i].next == nodes[i + 1])
      && nodes[|nodes| - 1].next == null
  }

  /** A chain that reaches the null link visits no node twice. */
  lemma {:induction false} ChainIsAcyclic(start: LogEntry?, nodes: seq<LogEntry>)
    requires Chain(start, nodes)
    ensures Distinct(nodes)
  {
    if nodes != [] {
      var rest := nodes[1..];
      ChainIsAcyclic(nodes[0].next, rest);
      forall j | 1 <= j < |nodes|
        ensures nodes[0] != nodes[j]
      {
        SameRemainder(nodes[0], nodes, nodes[j], nodes[j..]);
      }
      forall i, j | 0 <= i < j < |nodes|
        ensures nodes[i] != nodes[j]
      {
        if i != 0 {
          assert rest[i - 1] != rest[j - 1];
        }
      }
    }
  }

  /** The next links alone decide how long a chain is. */
  lemma {:induction false} SameRemainder(p: LogEntry?, ps: seq<LogEntry>, q: LogEntry?, qs: seq<LogEntry>)
    requires Chain(p, ps) && Chain(q, qs)
    ensures p == q ==> |ps| == |qs|
  {
    if p == q && p != null {
      SameRemainder(p.next, ps[1..], q.next, qs[1..]);
    }
  }

  /** The previous links invert the next links. */
  ghost predicate BackLinked(nodes: seq<LogEntry>)
    reads nodes`previous
  {
    nodes == [] || (
      && nodes[0].previous == null
      && forall i {:trigger nodes[i].previous} :: 1 <= i < |nodes| ==> nodes[i].previous == nodes[i - 1])
  }

  ghost predicate Distinct(nodes: seq<LogEntry>) {
    forall i, j :: 0 <= i < j < |nodes| ==> nodes[i] != nodes[j]
  }

  /** No two key or value buffers are the same. */
  ghost predicate Separate(nodes: seq<LogEntry>)
    reads nodes
  {
    && (forall i, j :: 0 <= i < j < |nodes| ==>
          nodes[i].key != nodes[j].key && nodes[i].value != nodes[j].value)
    && (forall i, j :: 0 <= i < |nodes| && 0 <= j < |nodes| ==> nodes[i].key != nodes[j].value)
  }

  ghost function Buffers(nodes: seq<LogEntry>): set<array<byte>>
    reads nodes
  {
    (set n | n in nodes :: n.key) + (set n | n in nodes :: n.value)
  }

  /** No node uses this buffer. */
  ghost predicate Apart(nodes: seq<LogEntry>, buffer: array<byte>)
    reads nodes
  {
    forall i :: 0 <= i < |nodes| ==> nodes[i].key != buffer && nodes[i].value != buffer
  }

  /** The nodes hold the given keys and values. */
  ghost predicate Holds(nodes: seq<LogEntry>, es: seq<Entry>)
    reads nodes, Buffers(nodes)
  {
    && |nodes| == |es|
    && forall i :: 0 <= i < |nodes| ==> nodes[i].Valid() && nodes[i].Content() == es[i]
  }

  /** The abstraction: the request in memory, with its list made of the given nodes, is q. */
  ghost predicate Represents(req: AppendLogReq, nodes: seq<LogEntry>, q: Request)
    reads req, req.logEntries, nodes, Buffers(nodes)
  {
    && q.header == req.HeaderOf()
    && Chain(req.logEntries.start, nodes)
    && Holds(nodes, q.entries)
  }

  /** The fields of a request at their places in a body. */
  ghost predicate HeaderOnWire(s: seq<byte>, req: AppendLogReq)
    reads req, req.logEntries
  {
    && 38 <= |s|
    && s[0..8] == U64(req.term) && s[8..10] == U16(req.leaderId)
    && s[10..18] == U64(req.prevLogTerm) && s[18..26] == U64(req.prevLogIndex)
    && s[26..34] == U64(req.leaderCommitIndex)
    && s[34..36] == U16(req.logEntries.length) && s[36..38] == U16(req.logEntries.memSize)
  }

  /** The fields of a node at an offset of a body. */
  ghost predicate NodeOnWire(s: seq<byte>, at: nat, node: LogEntry)
    reads node, node.key, node.value
  {
    && node.Valid()
    && var k, v := node.keySize, node.valSize;
    && at + 4 + k + v <= |s|
    && s[at..at + 2] == U16(k) && s[at + 2..at + 2 + k] == node.key[..k]
    && s[at + 2 + k..at + 2 + k + 2] == U16(v) && s[at + 4 + k..at + 4 + k + v] == node.value[..v]
  }

  /** The nodes in their order, one behind the other from the 38th byte on. */
  ghost predicate NodesOnWire(s: seq<byte>, nodes: seq<LogEntry>, es: seq<Entry>)
    requires |nodes| == |es|
    reads nodes, Buffers(nodes)
  {
    forall k :: 0 <= k < |nodes| ==> NodeOnWire(s, 38 + SizeBefore(es, k), nodes[k])
  }

  lemma EncodedOnWire(s: seq<byte>, req: AppendLogReq, nodes: seq<LogEntry>, q: Request)
    requires Represents(req, nodes, q) && Encode(q) <= s
    ensures HeaderOnWire(s, req) && NodesOnWire(s, nodes, q.entries)
  {
    var h := HeaderBytes(q.header);
    assert h <= s && Encode(q)[38..] == EntriesBytes(q.entries) && Encode(q)[38..] <= s[38..];
    HeaderFields(s, q.header);
    forall k | 0 <= k < |nodes|
      ensures NodeOnWire(s, 38 + SizeBefore(q.entries, k), nodes[k])
    {
      NodeEncodedOnWire(s, nodes[k], q.entries, k);
    }
  }

  lemma NodeEncodedOnWire(s: seq<byte>, node: LogEntry, es: seq<Entry>, k: nat)
    requires EntriesAt(s, 38, es) && k < |es| && node.Valid() && node.Content() == es[k]
    ensures NodeOnWire(s, 38 + SizeBefore(es, k), node)
  {
    EntryAt(s, 38, es, k);
    DecodedOnWire(s, 38 + SizeBefore(es, k), node);
  }

  lemma DecodedOnWire(s: seq<byte>, at: nat, node: LogEntry)
    requires at <= |s| && node.Valid() && DecodeEntry(s[at..]) == Some(node.Content())
    ensures NodeOnWire(s, at, node)
  {
    EntryFields(s, at, node.Content());
  }

  /** The straight-line part of the flattening: the five scalar fields in one copy, then the two
      size fields. */
  method CopyHeader(h: Header, body: array<byte>) returns (size: nat)
    requires HEADER_SIZE <= body.Length
    modifies body
    ensures size == HEADER_SIZE
    ensures body[..size] == HeaderBytes(h)
  {
    size := BASIC_SIZE;
    CopyInto(body, 0, BasicBytes(h));
    CopyInto(body, size, U16(h.length));
    size := size + 2;
    CopyInto(body, size, U16(h.memSize));
    size := size + 2;
  }

  /** One round of the flattening loop: copies key size, key, value size and value. */
  method CopyEntry(entry: LogEntry, body: array<byte>, start: nat) returns (size: nat)
    requires entry.Valid() && body != entry.key && body != entry.value
    requires start + |EntryBytes(entry.Content())| <= body.Length
    modifies body
    ensures size == start + |EntryBytes(entry.Content())|
    ensures body[..size] == old(body[..start]) + EntryBytes(entry.Content())
  {
    ghost var e := entry.Content();
    size := start;
    CopyInto(body, size, U16(entry.keySize));
    size := size + 2;
    CopyInto(body, size, entry.key[..entry.keySize]);
    size := size + entry.keySize;
    CopyInto(body, size, U16(entry.valSize));
    size := size + 2;
    CopyInto(body, size, entry.value[..entry.valSize]);
    size := size + entry.valSize;
    ConcatIsAssociative(old(body[..start]), U16(|e.key|), e.key, U16(|e.value|), e.value);
  }

  /** The flattening loop: walks the next links up to the null link. */
  method CopyEntries(start: LogEntry?, body: array<byte>, offset: nat, ghost nodes: seq<LogEntry>, ghost es: seq<Entry>)
    returns (size: nat)
    requires Chain(start, nodes) && Holds(nodes, es) && Apart(nodes, body)
    requires offset + MemSize(es) <= body.Length
    modifies body
    ensures size == offset + MemSize(es)
    ensures body[..size] == old(body[..offset]) + EntriesBytes(es)
  {
    size := offset;
    var entry := start;
    ghost var i := 0;
    while entry != null
      invariant 0 <= i <= |nodes|
      invariant entry == if i < |nodes| then nodes[i] else null
      invariant size + MemSize(es[i..]) == offset + MemSize(es)
      invariant size <= body.Length
      invariant body[..size] + EntriesBytes(es[i..]) == old(body[..offset]) + EntriesBytes(es)
      decreases |nodes| - i
    {
      EntriesSplit(es, i, body[..size]);
      assert entry.Valid() && entry.Content() == es[i];
      size := CopyEntry(entry, body, size);
      entry := entry.next;
      i := i + 1;
    }
  }

  /** Sizes a buffer from the memSize field and copies the request into it. The caller answers for
      memSize: with a smaller one the copies leave the buffer. The length field is copied, not
      consulted. */
  method FlattenRequest(req: AppendLogReq, dataPacket: DataPacket, ghost nodes: seq<LogEntry>, ghost q: Request)
    requires Represents(req, nodes, q)
    requires MemSize(q.entries) <= req.logEntries.memSize
    modifies dataPacket
    ensures dataPacket.Live() && fresh(dataPacket.body)
    ensures dataPacket.msgtype == old(dataPacket.msgtype)
    ensures dataPacket.length == HEADER_SIZE + req.logEntries.memSize == dataPacket.body.Length
    ensures Encode(q) <= dataPacket.Content()
  {
    var h := Header(req.term, req.leaderId, req.prevLogTerm, req.prevLogIndex, req.leaderCommitIndex,
                    req.logEntries.length, req.logEntries.memSize);
    var fullSize := BASIC_SIZE + 2 + 2 + req.logEntries.memSize;
    dataPacket.length := fullSize;
    dataPacket.body := new byte[fullSize];
    dataPacket.owned := true;
    var size := CopyHeader(h, dataPacket.body);
    size := CopyEntries(req.logEntries.start, dataPacket.body, size, nodes, q.entries);
    EncodingFillsBuffer(q);
  }

  /** What is flattened is in the body field by field. */
  method CompressAppendLogReq(req: AppendLogReq, dataPacket: DataPacket, ghost nodes: seq<LogEntry>, ghost q: Request)
    requires Represents(req, nodes, q)
    requires MemSize(q.entries) <= req.logEntries.memSize
    modifies dataPacket
    ensures dataPacket.Live() && fresh(dataPacket.body)
    ensures dataPacket.msgtype == old(dataPacket.msgtype)
    ensures dataPacket.length == 38 + req.logEntries.memSize == dataPacket.body.Length
    ensures Encode(q) <= dataPacket.Content()
    ensures HeaderOnWire(dataPacket.body[..], req) && NodesOnWire(dataPacket.body[..], nodes, q.entries)
  {
    FlattenRequest(req, dataPacket, nodes, q);
    assert dataPacket.Content() == dataPacket.body[..];
    EncodedOnWire(dataPacket.body[..], req, nodes, q);
  }

  /** One round of the rebuilding loop: allocates and fills the buffers of a node. */
  method FillEntry(entry: LogEntry, body: array<byte>, start: nat, ghost e: Entry) returns (size: nat)
    requires start <= body.Length && DecodeEntry(body[..][start..]) == Some(e)
    modifies entry`keySize, entry`key, entry`valSize, entry`value
    ensures fresh(entry.key) && fresh(entry.value) && entry.key != entry.value
    ensures entry.keySize == |e.key| && entry.valSize == |e.value|
    ensures entry.key[..] == e.key && entry.value[..] == e.value
    ensures size == start + |EntryBytes(e)| <= body.Length
  {
    EntryFields(body[..], start, e);
    size := start;
    entry.keySize := Read16(BytesAt(body, size, 2));
    size := size + 2;
    entry.key := new byte[entry.keySize];
    CopyInto(entry.key, 0, BytesAt(body, size, entry.keySize));
    size := size + entry.keySize;
    entry.valSize := Read16(BytesAt(body, size, 2));
    size := size + 2;
    entry.value := new byte[entry.valSize];
    CopyInto(entry.value, 0, BytesAt(body, size, entry.valSize));
    size := size + entry.valSize;
  }

  /** Allocates a node and links it behind the last one. */
  method LinkNew(previous: LogEntry, ghost start: LogEntry?, ghost nodes: seq<LogEntry>) returns (entry: LogEntry)
    requires nodes != [] && nodes[|nodes| - 1] == previous
    requires Chain(start, nodes) && BackLinked(nodes)
    modifies previous`next
    ensures fresh(entry)
    ensures Chain(start, nodes + [entry]) && BackLinked(nodes + [entry])
  {
    ChainIsAcyclic(start, nodes);
    entry := new LogEntry();
    previous.next := entry;
    entry.previous := previous;
  }

  /** The nodes are filled with the first of these entries, each in two buffers of its own. */
  ghost predicate Filled(nodes: seq<LogEntry>, buffers: set<array<byte>>, es: seq<Entry>)
    reads nodes`key, nodes`keySize, nodes`value, nodes`valSize, buffers
  {
    if nodes == [] then buffers == {} else
      var last := nodes[|nodes| - 1];
      && |nodes| <= |es|
      && last.key in buffers && last.value in buffers && last.key != last.value
      && last.keySize == last.key.Length && last.valSize == last.value.Length
      && last.key[..] == es[|nodes| - 1].key && last.value[..] == es[|nodes| - 1].value
      && Filled(nodes[..|nodes| - 1], buffers - {last.key, last.value}, es)
  }

  lemma {:induction false} FilledBuffers(nodes: seq<LogEntry>, buffers: set<array<byte>>, es: seq<Entry>)
    requires Filled(nodes, buffers, es)
    ensures forall n :: n in nodes ==> n.key in buffers && n.value in buffers
    ensures Buffers(nodes) <= buffers
  {
    if nodes != [] {
      var front, last := nodes[..|nodes| - 1], nodes[|nodes| - 1];
      FilledBuffers(front, buffers - {last.key, last.value}, es);
      assert nodes == front + [last];
    }
  }

  lemma {:induction false} FilledHolds(nodes: seq<LogEntry>, buffers: set<array<byte>>, es: seq<Entry>)
    requires Filled(nodes, buffers, es)
    ensures |nodes| <= |es| && Holds(nodes, es[..|nodes|])
  {
    if nodes != [] {
      var front, last := nodes[..|nodes| - 1], nodes[|nodes| - 1];
      FilledHolds(front, buffers - {last.key, last.value}, es);
      assert Holds(front, es[..|front|]);
      assert last.Content() == es[|front|];
    }
  }

  lemma {:induction false} FilledIsSeparate(nodes: seq<LogEntry>, buffers: set<array<byte>>, es: seq<Entry>)
    requires Filled(nodes, buffers, es)
    ensures Separate(nodes)
  {
    if nodes != [] {
      var front, last := nodes[..|nodes| - 1], nodes[|nodes| - 1];
      FilledIsSeparate(front, buffers - {last.key, last.value}, es);
      FilledBuffers(front, buffers - {last.key, last.value}, es);
      assert forall i :: 0 <= i < |front| ==> nodes[i] in front;
    }
  }

  /** FillEntry as a round of the loop: one more node is filled. */
  method FillNext(entry: LogEntry, body: array<byte>, start: nat, ghost offset: nat, ghost es: seq<Entry>,
                  ghost filled: seq<LogEntry>, ghost buffers: set<array<byte>>)
    returns (size: nat)
    requires EntriesAt(body[..], offset, es)
    requires var k := |filled|; k < |es| && start == offset + SizeBefore(es, k)
    requires entry !in filled && Filled(filled, buffers, es)
    modifies entry`keySize, entry`key, entry`valSize, entry`value
    ensures size == offset + SizeBefore(es, |filled| + 1)
    ensures Filled(filled + [entry], buffers + {entry.key, entry.value}, es)
    ensures fresh(entry.key) && fresh(entry.value)
  {
    ghost var k := |filled|;
    EntryAt(body[..], offset, es, k);
    size := FillEntry(entry, body, start, es[k]);
    assert Filled(filled, buffers, es);
    assert (filled + [entry])[..k] == filled;
    assert buffers + {entry.key, entry.value} - {entry.key, entry.value} == buffers;
  }

  /** One round of the rebuilding loop: fills the last node and, unless it was the final one, links
      a new one behind it. */
  method Round(entry: LogEntry, more: bool, body: array<byte>, start: nat, ghost first: LogEntry?,
               ghost offset: nat, ghost es: seq<Entry>, ghost nodes: seq<LogEntry>, ghost buffers: set<array<byte>>)
    returns (next: LogEntry, size: nat, ghost nodes': seq<LogEntry>, ghost buffers': set<array<byte>>)
    requires EntriesAt(body[..], offset, es)
    requires 1 <= |nodes| <= |es| && start == offset + SizeBefore(es, |nodes| - 1)
    requires nodes[|nodes| - 1] == entry && Chain(first, nodes) && BackLinked(nodes)
    requires Filled(nodes[..|nodes| - 1], buffers, es)
    modifies entry
    ensures size == offset + SizeBefore(es, |nodes|)
    ensures fresh(buffers' - buffers) && Filled(nodes, buffers', es)
    ensures nodes' == (if more then nodes + [next] else nodes) && (more ==> fresh(next))
    ensures Chain(first, nodes') && BackLinked(nodes')
  {
    ghost var filled := nodes[..|nodes| - 1];
    ChainIsAcyclic(first, nodes);
    assert filled + [entry] == nodes;
    size := FillNext(entry, body, start, offset, es, filled, buffers);
    nodes', buffers' := nodes, buffers + {entry.key, entry.value};
    next := entry;
    if more {
      next := LinkNew(entry, first, nodes);
      nodes' := nodes + [next];
    }
  }

  /** The rebuilding loop: fills nodes until the counter has run down. */
  method RebuildEntries(logEntries: LogEntries, body: array<byte>, offset: nat, ghost es: seq<Entry>)
    returns (ghost nodes: seq<LogEntry>, ghost buffers: set<array<byte>>)
    requires 1 <= logEntries.length == |es| && EntriesAt(body[..], offset, es)
    modifies logEntries`start
    ensures fresh(nodes) && fresh(buffers)
    ensures Chain(logEntries.start, nodes) && BackLinked(nodes)
    ensures Filled(nodes, buffers, es) && |nodes| == |es|
  {
    var size: nat, length: nat := offset, logEntries.length;
    var entry := new LogEntry();
    logEntries.start := entry;
    nodes, buffers := [entry], {};
    while true
      invariant 1 <= length && |nodes| + length == |es| + 1
      invariant size == offset + SizeBefore(es, |nodes| - 1)
      invariant fresh(nodes) && fresh(buffers)
      invariant nodes[|nodes| - 1] == entry
      invariant Chain(logEntries.start, nodes) && BackLinked(nodes)
      invariant Filled(nodes[..|nodes| - 1], buffers, es)
      decreases length
    {
      length := length - 1;
      ghost var before := nodes;
      entry, size, nodes, buffers :=
        Round(entry, length >= 1, body, size, logEntries.start, offset, es, nodes, buffers);
      if length < 1 {
        break;
      }
      assert nodes[..|nodes| - 1] == before;
    }
  }

  /** Rebuilds the list, as many nodes as the length field announces. Every read lies inside the
      body exactly when Decode finds a request there. */
  method RebuildRequest(dataPacket: DataPacket, req: AppendLogReq) returns (ghost nodes: seq<LogEntry>)
    requires dataPacket.owned && Decode(dataPacket.body[..]).Some?
    modifies req
    ensures fresh(req.logEntries) && fresh(nodes) && Distinct(nodes) && BackLinked(nodes)
    ensures fresh(Buffers(nodes)) && Separate(nodes)
    ensures Represents(req, nodes, Decode(dataPacket.body[..]).value)
  {
    var body := dataPacket.body;
    ghost var content := body[..];
    ghost var q := Decode(content).value;
    EntriesCanonical(content[HEADER_SIZE..], q.header.length);
    var h := DecodeHeader(body[..]);
    var size: nat := BASIC_SIZE;
    req.term, req.leaderId := h.term, h.leaderId;
    req.prevLogTerm, req.prevLogIndex := h.prevLogTerm, h.prevLogIndex;
    req.leaderCommitIndex := h.leaderCommitIndex;
    var logEntries := new LogEntries();
    req.logEntries := logEntries;
    logEntries.length := Read16(BytesAt(body, size, 2));
    size := size + 2;
    logEntries.memSize := Read16(BytesAt(body, size, 2));
    size := size + 2;
    nodes := [];
    if logEntries.length <= 0 {
      return;
    }
    assert body[..] == content;
    ghost var buffers;
    nodes, buffers := RebuildEntries(logEntries, body, size, q.entries);
    FilledHolds(nodes, buffers, q.entries);
    FilledBuffers(nodes, buffers, q.entries);
    FilledIsSeparate(nodes, buffers, q.entries);
    assert q.entries[..|nodes|] == q.entries;
    ChainIsAcyclic(logEntries.start, nodes);
  }

  /** What is rebuilt is what the body says, field by field. */
  method DecompressAppendLogReq(dataPacket: DataPacket, req: AppendLogReq) returns (ghost nodes: seq<LogEntry>)
    requires dataPacket.owned && Decode(dataPacket.body[..]).Some?
    modifies req
    ensures fresh(req.logEntries) && fresh(nodes) && Distinct(nodes) && BackLinked(nodes)
    ensures fresh(Buffers(nodes)) && Separate(nodes)
    ensures Represents(req, nodes, Decode(dataPacket.body[..]).value)
    ensures HeaderOnWire(dataPacket.body[..], req)
    ensures NodesOnWire(dataPacket.body[..], nodes, Decode(dataPacket.body[..]).value.entries)
  {
    nodes := RebuildRequest(dataPacket, req);
    EncodeOfDecode(dataPacket.body[..]);
    EncodedOnWire(dataPacket.body[..], req, nodes, Decode(dataPacket.body[..]).value);
  }

  /** The sender's half: a well-formed request leaves as the frame of its encoding. */
  method Send(req: AppendLogReq, ghost nodes: seq<LogEntry>, ghost q: Request) returns (message: MessagePacket)
    requires Represents(req, nodes, q) && WellFormed(q)
    ensures fresh(message) && message.Valid()
    ensures |Encode(q)| + FRAME_HEADER < 0x1_0000_0000_0000_0000
    ensures message.Content() == Frame(APPEND_ENTRIES_REQUEST, Encode(q))
  {
    var packet := new DataPacket();
    CompressAppendLogReq(req, packet, nodes, q);
    packet.msgtype := APPEND_ENTRIES_REQUEST;
    EncodingFillsBuffer(q);
    assert packet.Content() == Encode(q);
    message := new MessagePacket(0, packet.body);
    CompressDataPacket(packet, message);
  }

  /** The nested round trip on the heap: a well-formed request, flattened, framed, unframed and
      rebuilt, is the same request again, in a new and properly linked list. */
  method Transfer(req: AppendLogReq, received: AppendLogReq, ghost nodes: seq<LogEntry>, ghost q: Request)
    returns (ghost nodes': seq<LogEntry>)
    requires Represents(req, nodes, q) && WellFormed(q)
    modifies received
    ensures Represents(received, nodes', q)
    ensures fresh(nodes') && Distinct(nodes') && BackLinked(nodes')
    ensures fresh(Buffers(nodes')) && Separate(nodes')
  {
    var message := Send(req, nodes, q);
    NestedRoundTrip(q, []);
    assert message.Content() + [] == message.Content();
    var packet := new DataPacket();
    DecompressDataPacket(message, packet);
    nodes' := DecompressAppendLogReq(packet, received);
  }
}
