/** The outer frame: a message type and a length in front of a command body. */
module DataProtocal {
  import opened Bytes

  const UNKNOWN: byte := 0
  const REQUEST_VOTE_REQUEST: byte := 1
  const REQUEST_VOTE_RESPONSE: byte := 2
  const APPEND_ENTRIES_REQUEST: byte := 3

  /** Bytes of type and length in front of the body. */
  const FRAME_HEADER := 9

  /** A body whose frame still has a 64-bit length; no larger block exists in the address space. */
  type Body = s: seq<byte> | |s| + FRAME_HEADER < 0x1_0000_0000_0000_0000

  class DataPacket {
    var msgtype: byte
    var length: uint64
    var body: array<byte>
    /** Whether `body` is a block this packet still has to free. */
    ghost var owned: bool

    constructor ()
      ensures fresh(body) && !owned
    {
      msgtype, length, body, owned := UNKNOWN, 0, new byte[0], false;
    }

    /** The packet holds a live body of at least `length` bytes. */
    ghost predicate Live()
      reads this
    {
      owned && length <= body.Length
    }

    ghost function Content(): (s: seq<byte>)
      requires Live()
      reads this, body
    {
      body[..length]
    }
  }

  class MessagePacket {
    var length: uint64
    var body: array<byte>

    constructor (length: uint64, body: array<byte>)
      ensures this.length == length && this.body == body
    {
      this.length, this.body := length, body;
    }

    ghost predicate Valid()
      reads this
    {
      length <= body.Length
    }

    ghost function Content(): (s: seq<byte>)
      requires Valid()
      reads this, body
    {
      body[..length]
    }
  }

  function Frame(msgtype: byte, body: Body): (s: seq<byte>)
    ensures |s| == FRAME_HEADER + |body|
  {
    [msgtype] + U64(|body|) + body
  }

  /** What unframing reads. The body is everything after the nine header bytes, whatever the
      length field says. */
  datatype Unframed = Unframed(msgtype: byte, length: uint64, body: seq<byte>)

  function Unframe(s: seq<byte>): Unframed
    requires FRAME_HEADER <= |s|
  {
    Unframed(s[0], Read64(s[1..9]), s[9..])
  }

  /** Unframing a frame gives back its type and body length; bytes that followed the frame in the
      buffer end up behind the body. */
  lemma UnframeOfFrame(msgtype: byte, body: Body, trailing: seq<byte>)
    ensures Unframe(Frame(msgtype, body) + trailing) == Unframed(msgtype, |body|, body + trailing)
  {
    var s := Frame(msgtype, body) + trailing;
    assert s[1..9] == U64(|body|);
    assert s[9..] == body + trailing;
    Read64OfU64(|body|);
  }

  /** The frame header is redundant exactly when the length field tells the truth: only then does
      framing the unframed body give back the bytes that were received. */
  lemma FrameOfUnframe(s: seq<byte>)
    requires FRAME_HEADER <= |s| < 0x1_0000_0000_0000_0000
    ensures var u := Unframe(s); Frame(u.msgtype, u.body) == s <==> u.length == |u.body|
  {
    var u := Unframe(s);
    assert s == [s[0]] + s[1..9] + s[9..];
    if Frame(u.msgtype, u.body) == s {
      assert Frame(u.msgtype, u.body)[1..9] == U64(|u.body|);
      Read64OfU64(|u.body|);
    }
  }

  /** Wraps a packet into one message and frees the packet's body. */
  method CompressDataPacket(dataPacket: DataPacket, messagePacket: MessagePacket)
    requires dataPacket.Live()
    requires dataPacket.length + FRAME_HEADER < 0x1_0000_0000_0000_0000
    modifies messagePacket, dataPacket`owned
    ensures messagePacket.Valid() && fresh(messagePacket.body)
    ensures messagePacket.body.Length == messagePacket.length
    ensures messagePacket.Content() == Frame(dataPacket.msgtype, old(dataPacket.Content()))
    ensures !dataPacket.owned
  {
    messagePacket.length := 1 + 8 + dataPacket.length;
    messagePacket.body := new byte[messagePacket.length];
    CopyInto(messagePacket.body, 0, [dataPacket.msgtype]);
    CopyInto(messagePacket.body, 1, U64(dataPacket.length));
    CopyInto(messagePacket.body, 1 + 8, dataPacket.body[..dataPacket.length]);
    dataPacket.owned := false; // free(dataPacket.body)
  }

  /** Splits a message into type, length field and a fresh copy of everything behind them. */
  method DecompressDataPacket(messagePacket: MessagePacket, dataPacket: DataPacket)
    requires messagePacket.Valid() && FRAME_HEADER <= messagePacket.length
    modifies dataPacket
    ensures var u := Unframe(messagePacket.Content());
      && dataPacket.msgtype == u.msgtype
      && dataPacket.length == u.length
      && dataPacket.body[..] == u.body
    ensures fresh(dataPacket.body) && dataPacket.owned
  {
    ghost var content := messagePacket.Content();
    dataPacket.msgtype := messagePacket.body[0];
    dataPacket.length := Read64(messagePacket.body[1..9]);
    var bodySize := messagePacket.length - 1 - 8;
    dataPacket.body := new byte[bodySize];
    CopyInto(dataPacket.body, 0, messagePacket.body[9..messagePacket.length]);
    dataPacket.owned := true;
    assert content[1..9] == messagePacket.body[1..9];
  }
}
