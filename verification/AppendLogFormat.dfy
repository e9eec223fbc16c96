/** The byte format of an append request: a 38-byte header, then for every log entry its key size,
    key, value size and value. Everything here is about values; AppendLog has the linked list. */
module AppendLogFormat {
  import opened Bytes
  import opened DataProtocal
  import opened Options

  /** A key or a value: its size is a 16-bit field. */
  type Blob = s: seq<byte> | |s| < 0x1_0000

  datatype Entry = Entry(key: Blob, value: Blob)

  /** The scalar fields of a request, with the two size fields of its entry list. */
  datatype Header = Header(term: uint64, leaderId: uint16, prevLogTerm: uint64, prevLogIndex: uint64,
                           leaderCommitIndex: uint64, length: uint16, memSize: uint16)

  datatype Request = Request(header: Header, entries: seq<Entry>)

  /** The scalar fields of the request proper. */
  const BASIC_SIZE := 34
  /** ... followed by the two size fields. */
  const HEADER_SIZE := 38

  function BasicBytes(h: Header): (s: seq<byte>)
    ensures |s| == BASIC_SIZE
  {
    U64(h.term) + U16(h.leaderId) + U64(h.prevLogTerm) + U64(h.prevLogIndex) + U64(h.leaderCommitIndex)
  }

  function HeaderBytes(h: Header): (s: seq<byte>)
    ensures |s| == HEADER_SIZE
  {
    BasicBytes(h) + U16(h.length) + U16(h.memSize)
  }

  function EntryBytes(e: Entry): (s: seq<byte>)
    ensures |s| == 4 + |e.key| + |e.value|
  {
    U16(|e.key|) + e.key + U16(|e.value|) + e.value
  }

  function EntriesBytes(es: seq<Entry>): seq<byte> {
    if es == [] then [] else EntryBytes(es[0]) + EntriesBytes(es[1..])
  }

  /** Memory the entries take on the wire. */
  function MemSize(es: seq<Entry>): nat {
    if es == [] then 0 else 4 + |es[0].key| + |es[0].value| + MemSize(es[1..])
  }

  /** Where the k-th entry starts, counted from the first one. */
  function SizeBefore(es: seq<Entry>, k: nat): nat
    requires k <= |es|
  {
    MemSize(es[..k])
  }

  function Encode(q: Request): seq<byte> {
    HeaderBytes(q.header) + EntriesBytes(q.entries)
  }

  /** The two size fields describe the list. */
  predicate WellFormed(q: Request) {
    q.header.length == |q.entries| && q.header.memSize == MemSize(q.entries)
  }

  /** Reads one entry at the front of s; None when it does not lie inside s. */
  function DecodeEntry(s: seq<byte>): Option<Entry> {
    if |s| < 2 then None else
    var k := Read16(s[..2]);
    if |s| < 4 + k then None else
    var v := Read16(s[2 + k..4 + k]);
    if |s| < 4 + k + v then None else
    Some(Entry(s[2..2 + k], s[4 + k..4 + k + v]))
  }

  /** Reads n entries from the front of s. */
  function DecodeEntries(s: seq<byte>, n: nat): (r: Option<seq<Entry>>)
    ensures r.Some? ==> |r.value| == n
    decreases n
  {
    if n == 0 then Some([]) else
    var first := DecodeEntry(s);
    if first.None? then None else
    var rest := DecodeEntries(s[|EntryBytes(first.value)|..], n - 1);
    if rest.None? then None else Some([first.value] + rest.value)
  }

  function DecodeHeader(s: seq<byte>): Header
    requires HEADER_SIZE <= |s|
  {
    Header(Read64(s[0..8]), Read16(s[8..10]), Read64(s[10..18]), Read64(s[18..26]), Read64(s[26..34]),
           Read16(s[34..36]), Read16(s[36..38]))
  }

  /** Reads as many entries as the length field announces; None when some read leaves s. The
      memSize field steers nothing. */
  function Decode(s: seq<byte>): Option<Request> {
    if |s| < HEADER_SIZE then None else
    var h := DecodeHeader(s);
    var es := DecodeEntries(s[HEADER_SIZE..], h.length);
    if es.None? then None else Some(Request(h, es.value))
  }

  // ----- sizes

  lemma {:induction false} SizeOfEntries(es: seq<Entry>)
    ensures |EntriesBytes(es)| == MemSize(es)
    ensures 4 * |es| <= MemSize(es)
  {
    if es != [] {
      SizeOfEntries(es[1..]);
    }
  }

  lemma EntriesSplit(es: seq<Entry>, i: nat, front: seq<byte>)
    requires i < |es|
    ensures front + EntriesBytes(es[i..]) == front + EntryBytes(es[i]) + EntriesBytes(es[i + 1..])
    ensures MemSize(es[i..]) == |EntryBytes(es[i])| + MemSize(es[i + 1..])
  {
  }

  /** The encoding ends where the buffer sized from the memSize field ends, that is every byte of
      the buffer is written and none beyond it, exactly when memSize is the sum of the entry sizes. */
  lemma EncodingFillsBuffer(q: Request)
    ensures |Encode(q)| == HEADER_SIZE + q.header.memSize <==> q.header.memSize == MemSize(q.entries)
    ensures |Encode(q)| == HEADER_SIZE + MemSize(q.entries)
  {
    SizeOfEntries(q.entries);
  }

  /** A list whose size fields are truthful is small: nothing computed from them leaves 64 bits, or
      even 17 bits, in the encoder or in the frame around it. */
  lemma WidthBound(q: Request)
    requires WellFormed(q)
    ensures 4 * |q.entries| <= q.header.memSize <= 0xFFFF
    ensures |q.entries| <= 16383
    ensures |Encode(q)| <= 65573
    ensures |Frame(APPEND_ENTRIES_REQUEST, Encode(q))| <= 65582
  {
    SizeOfEntries(q.entries);
  }

  // ----- decoding what was encoded

  lemma HeaderRoundTrip(h: Header, trailing: seq<byte>)
    ensures DecodeHeader(HeaderBytes(h) + trailing) == h
  {
    var s := HeaderBytes(h) + trailing;
    assert s[0..8] == U64(h.term);
    assert s[8..10] == U16(h.leaderId);
    assert s[10..18] == U64(h.prevLogTerm);
    assert s[18..26] == U64(h.prevLogIndex);
    assert s[26..34] == U64(h.leaderCommitIndex);
    assert s[34..36] == U16(h.length);
    assert s[36..38] == U16(h.memSize);
    Read64OfU64(h.term);
    Read16OfU16(h.leaderId);
    Read64OfU64(h.prevLogTerm);
    Read64OfU64(h.prevLogIndex);
    Read64OfU64(h.leaderCommitIndex);
    Read16OfU16(h.length);
    Read16OfU16(h.memSize);
  }

  lemma HeaderLayout(h: Header)
    ensures var b := HeaderBytes(h);
      && |b| == 38 && b[0..8] == U64(h.term) && b[8..10] == U16(h.leaderId)
      && b[10..18] == U64(h.prevLogTerm) && b[18..26] == U64(h.prevLogIndex) && b[26..34] == U64(h.leaderCommitIndex)
      && b[34..36] == U16(h.length) && b[36..38] == U16(h.memSize)
  {
  }

  lemma PartOfPrefix(b: seq<byte>, s: seq<byte>, i: nat, j: nat)
    requires b <= s && i <= j <= |b|
    ensures s[i..j] == b[i..j]
  {
  }

  /** Where the scalar fields and the two size fields lie. */
  lemma HeaderFields(s: seq<byte>, h: Header)
    requires HeaderBytes(h) <= s
    ensures 38 <= |s|
    ensures s[0..8] == U64(h.term) && s[8..10] == U16(h.leaderId)
    ensures s[10..18] == U64(h.prevLogTerm) && s[18..26] == U64(h.prevLogIndex) && s[26..34] == U64(h.leaderCommitIndex)
    ensures s[34..36] == U16(h.length) && s[36..38] == U16(h.memSize)
  {
    var b := HeaderBytes(h);
    HeaderLayout(h);
    PartOfPrefix(b, s, 0, 8);
    PartOfPrefix(b, s, 8, 10);
    PartOfPrefix(b, s, 10, 18);
    PartOfPrefix(b, s, 18, 26);
    PartOfPrefix(b, s, 26, 34);
    PartOfPrefix(b, s, 34, 36);
    PartOfPrefix(b, s, 36, 38);
  }

  /** The frame of a request: its type, and the size of what follows. */
  lemma AppendFrameLayout(q: Request)
    requires WellFormed(q)
    ensures |Encode(q)| + FRAME_HEADER < 0x1_0000_0000_0000_0000
    ensures var s := Frame(APPEND_ENTRIES_REQUEST, Encode(q));
      s[0] == 3 && s[1..9] == U64(38 + q.header.memSize) && s[9..] == Encode(q)
  {
    WidthBound(q);
    EncodingFillsBuffer(q);
  }

  lemma EntryRoundTrip(e: Entry, trailing: seq<byte>)
    ensures DecodeEntry(EntryBytes(e) + trailing) == Some(e)
  {
    var s := EntryBytes(e) + trailing;
    var k, v := |e.key|, |e.value|;
    assert s[..2] == U16(k);
    Read16OfU16(k);
    assert s[2 + k..4 + k] == U16(v);
    Read16OfU16(v);
    assert s[2..2 + k] == e.key;
    assert s[4 + k..4 + k + v] == e.value;
  }

  lemma FirstEntryRoundTrip(es: seq<Entry>, trailing: seq<byte>)
    requires es != []
    ensures var s, first := EntriesBytes(es) + trailing, EntryBytes(es[0]);
      |first| <= |s| && DecodeEntry(s) == Some(es[0]) && s[|first|..] == EntriesBytes(es[1..]) + trailing
  {
    var rest := EntriesBytes(es[1..]) + trailing;
    assert EntriesBytes(es) + trailing == EntryBytes(es[0]) + rest;
    EntryRoundTrip(es[0], rest);
  }

  /** Reading n of the encoded entries gives the first n of them, whatever follows. */
  lemma {:induction false} EntriesRoundTrip(es: seq<Entry>, n: nat, trailing: seq<byte>)
    requires n <= |es|
    ensures DecodeEntries(EntriesBytes(es) + trailing, n) == Some(es[..n])
    decreases n
  {
    if n != 0 {
      FirstEntryRoundTrip(es, trailing);
      EntriesRoundTrip(es[1..], n - 1, trailing);
      assert es[..n] == [es[0]] + es[1..][..n - 1];
    }
  }

  /** Decoding is determined by the bytes of the encoding alone; the receiver may find anything
      behind them. The entries come back as far as the length field reaches. */
  lemma DecodeOfEncode(q: Request, trailing: seq<byte>)
    requires q.header.length <= |q.entries|
    ensures Decode(Encode(q) + trailing) == Some(q.(entries := q.entries[..q.header.length]))
  {
    var s := Encode(q) + trailing;
    var body := EntriesBytes(q.entries) + trailing;
    assert s == HeaderBytes(q.header) + body;
    HeaderRoundTrip(q.header, body);
    assert DecodeHeader(s) == q.header;
    EntriesRoundTrip(q.entries, q.header.length, trailing);
    assert s[HEADER_SIZE..] == body;
  }

  /** The codec loses nothing exactly on the requests whose length field counts their list. */
  lemma RoundTripIffCounted(q: Request, trailing: seq<byte>)
    ensures Decode(Encode(q) + trailing) == Some(q) <==> q.header.length == |q.entries|
  {
    if q.header.length == |q.entries| {
      DecodeOfEncode(q, trailing);
      assert q.entries[..q.header.length] == q.entries;
    }
  }

  /** Two counted requests with one encoding are one request, and no encoding is a proper prefix
      of another one. */
  lemma EncodingIsPrefixFree(p: Request, q: Request, trailing: seq<byte>)
    requires p.header.length == |p.entries| && q.header.length == |q.entries|
    requires Encode(p) + trailing == Encode(q)
    ensures p == q && trailing == []
  {
    RoundTripIffCounted(p, trailing);
    RoundTripIffCounted(q, []);
    assert Encode(q) + [] == Encode(q);
  }

  // ----- encoding what was decoded

  /** The encoded entries stand at an offset of s. */
  ghost predicate EntriesAt(s: seq<byte>, offset: nat, es: seq<Entry>) {
    offset <= |s| && EntriesBytes(es) <= s[offset..]
  }

  /** Every one of them can then be read where the sizes of the earlier ones put it. */
  lemma {:induction false} EntryAt(s: seq<byte>, offset: nat, es: seq<Entry>, k: nat)
    requires EntriesAt(s, offset, es) && k < |es|
    ensures var at := offset + SizeBefore(es, k);
      && at <= |s| && DecodeEntry(s[at..]) == Some(es[k])
      && at + |EntryBytes(es[k])| == offset + SizeBefore(es, k + 1) <= |s|
    decreases k
  {
    var first, rest := EntryBytes(es[0]), s[offset + |EntryBytes(es[0])|..];
    assert s[offset..] == first + rest;
    assert s[offset..][|first|..] == rest;
    assert EntriesBytes(es)[|first|..] == EntriesBytes(es[1..]);
    assert es[..k + 1][1..] == es[1..][..k];
    if k == 0 {
      EntryRoundTrip(es[0], rest);
      assert MemSize(es[..1]) == |first|;
    } else {
      EntryAt(s, offset + |first|, es[1..], k - 1);
      assert es[..k][1..] == es[1..][..k - 1];
    }
  }

  /** Where the fields of an entry lie. */
  lemma EntryFields(s: seq<byte>, at: nat, e: Entry)
    requires at <= |s| && DecodeEntry(s[at..]) == Some(e)
    ensures var k, v := |e.key|, |e.value|;
      && at + 4 + k + v <= |s|
      && Read16(s[at..at + 2]) == k
      && s[at + 2..at + 2 + k] == e.key
      && Read16(s[at + 2 + k..at + 2 + k + 2]) == v
      && s[at + 4 + k..at + 4 + k + v] == e.value
  {
    var k := |e.key|;
    assert s[at..][..2] == s[at..at + 2];
    assert s[at..][2 + k..4 + k] == s[at + 2 + k..at + 2 + k + 2];
  }

  lemma EntryCanonical(s: seq<byte>)
    requires DecodeEntry(s).Some?
    ensures EntryBytes(DecodeEntry(s).value) <= s
  {
  }

  lemma {:induction false} EntriesCanonical(s: seq<byte>, n: nat)
    requires DecodeEntries(s, n).Some?
    ensures EntriesBytes(DecodeEntries(s, n).value) <= s
    decreases n
  {
    if n != 0 {
      EntryCanonical(s);
      var first := EntryBytes(DecodeEntry(s).value);
      EntriesCanonical(s[|first|..], n - 1);
      var es := DecodeEntries(s, n).value;
      assert es[1..] == DecodeEntries(s[|first|..], n - 1).value;
      assert s == first + s[|first|..];
    }
  }

  /** Canonical form: re-encoding a decoded request gives back the bytes it was read from. What was
      consumed is the header and the entries; it is 38 + memSize bytes exactly when the memSize
      field on the wire is truthful. */
  lemma EncodeOfDecode(s: seq<byte>)
    requires Decode(s).Some?
    ensures var q := Decode(s).value;
      && Encode(q) <= s
      && q.header.length == |q.entries|
      && (|Encode(q)| == HEADER_SIZE + q.header.memSize <==> WellFormed(q))
  {
    var q := Decode(s).value;
    assert s[..HEADER_SIZE] == s[0..8] + s[8..10] + s[10..18] + s[18..26] + s[26..34] + s[34..36] + s[36..38];
    assert HeaderBytes(q.header) == s[..HEADER_SIZE];
    EntriesCanonical(s[HEADER_SIZE..], q.header.length);
    assert s == s[..HEADER_SIZE] + s[HEADER_SIZE..];
    EncodingFillsBuffer(q);
  }

  /** The format as a language: the byte strings a decoder accepts are exactly the encodings of
      counted requests with something behind them. */
  lemma AcceptedBytes(s: seq<byte>, q: Request)
    ensures Decode(s) == Some(q) <==> Encode(q) <= s && q.header.length == |q.entries|
  {
    if Decode(s) == Some(q) {
      EncodeOfDecode(s);
    }
    if Encode(q) <= s && q.header.length == |q.entries| {
      RoundTripIffCounted(q, s[|Encode(q)|..]);
      assert s == Encode(q) + s[|Encode(q)|..];
    }
  }

  /** The nested round trip on values: frame, unframe and decode an encoded request, with any bytes
      behind the frame in the receive buffer. */
  lemma NestedRoundTrip(q: Request, trailing: seq<byte>)
    requires WellFormed(q)
    ensures |Encode(q)| + FRAME_HEADER < 0x1_0000_0000_0000_0000
    ensures var u := Unframe(Frame(APPEND_ENTRIES_REQUEST, Encode(q)) + trailing);
      && u.msgtype == APPEND_ENTRIES_REQUEST
      && u.length == HEADER_SIZE + q.header.memSize
      && Decode(u.body) == Some(q)
  {
    WidthBound(q);
    EncodingFillsBuffer(q);
    UnframeOfFrame(APPEND_ENTRIES_REQUEST, Encode(q), trailing);
    RoundTripIffCounted(q, trailing);
  }
}
