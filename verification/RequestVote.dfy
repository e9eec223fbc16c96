/** The fixed-size commands: vote request, vote response and append response.
    Each packed structure travels as its memory image. */
module RequestVote {
  import opened Bytes
  import opened DataProtocal

  datatype VoteReq = VoteReq(term: uint64, candidateId: uint16, lastLogIndex: uint64,
                             lastLogTerm: uint64, timeInNano: uint64)

  datatype VoteResp = VoteResp(term: uint64, candidateId: uint16, voteGranted: bool,
                               requestTerm: uint64, timeInNano: uint64)

  datatype AppendResp = AppendResp(term: uint64, success: bool)

  const VOTE_REQ_SIZE := 34
  const VOTE_RESP_SIZE := 27
  const APPEND_RESP_SIZE := 9

  function BoolByte(b: bool): byte {
    if b then 1 else 0
  }

  function EncodeVoteReq(r: VoteReq): (s: seq<byte>)
    ensures |s| == VOTE_REQ_SIZE
  {
    U64(r.term) + U16(r.candidateId) + U64(r.lastLogIndex) + U64(r.lastLogTerm) + U64(r.timeInNano)
  }

  /** Reads a request from the front of s. */
  function DecodeVoteReq(s: seq<byte>): VoteReq
    requires VOTE_REQ_SIZE <= |s|
  {
    VoteReq(Read64(s[0..8]), Read16(s[8..10]), Read64(s[10..18]), Read64(s[18..26]), Read64(s[26..34]))
  }

  function EncodeVoteResp(r: VoteResp): (s: seq<byte>)
    ensures |s| == VOTE_RESP_SIZE
  {
    U64(r.term) + U16(r.candidateId) + [BoolByte(r.voteGranted)] + U64(r.requestTerm) + U64(r.timeInNano)
  }

  /** Reads a response from the front of s. */
  function DecodeVoteResp(s: seq<byte>): VoteResp
    requires VOTE_RESP_SIZE <= |s|
  {
    VoteResp(Read64(s[0..8]), Read16(s[8..10]), s[10] != 0, Read64(s[11..19]), Read64(s[19..27]))
  }

  function EncodeAppendResp(r: AppendResp): (s: seq<byte>)
    ensures |s| == APPEND_RESP_SIZE
  {
    U64(r.term) + [BoolByte(r.success)]
  }

  function DecodeAppendResp(s: seq<byte>): AppendResp
    requires APPEND_RESP_SIZE <= |s|
  {
    AppendResp(Read64(s[0..8]), s[8] != 0)
  }

  lemma VoteReqRoundTrip(r: VoteReq, trailing: seq<byte>)
    ensures DecodeVoteReq(EncodeVoteReq(r) + trailing) == r
  {
    var s := EncodeVoteReq(r) + trailing;
    assert s[0..8] == U64(r.term);
    assert s[8..10] == U16(r.candidateId);
    assert s[10..18] == U64(r.lastLogIndex);
    assert s[18..26] == U64(r.lastLogTerm);
    assert s[26..34] == U64(r.timeInNano);
    Read64OfU64(r.term);
    Read16OfU16(r.candidateId);
    Read64OfU64(r.lastLogIndex);
    Read64OfU64(r.lastLogTerm);
    Read64OfU64(r.timeInNano);
  }

  lemma VoteRespRoundTrip(r: VoteResp, trailing: seq<byte>)
    ensures DecodeVoteResp(EncodeVoteResp(r) + trailing) == r
  {
    var s := EncodeVoteResp(r) + trailing;
    assert s[0..8] == U64(r.term);
    assert s[8..10] == U16(r.candidateId);
    assert s[11..19] == U64(r.requestTerm);
    assert s[19..27] == U64(r.timeInNano);
    Read64OfU64(r.term);
    Read16OfU16(r.candidateId);
    Read64OfU64(r.requestTerm);
    Read64OfU64(r.timeInNano);
  }

  lemma AppendRespRoundTrip(r: AppendResp, trailing: seq<byte>)
    ensures DecodeAppendResp(EncodeAppendResp(r) + trailing) == r
  {
    var s := EncodeAppendResp(r) + trailing;
    assert s[0..8] == U64(r.term);
    Read64OfU64(r.term);
  }

  /** The image of a vote request, field by field. */
  lemma VoteReqLayout(r: VoteReq)
    ensures var s := EncodeVoteReq(r);
      && |s| == 34 && s[0..8] == U64(r.term) && s[8..10] == U16(r.candidateId)
      && s[10..18] == U64(r.lastLogIndex) && s[18..26] == U64(r.lastLogTerm) && s[26..34] == U64(r.timeInNano)
  {
  }

  /** The image of a vote response, field by field. */
  lemma VoteRespLayout(r: VoteResp)
    ensures var s := EncodeVoteResp(r);
      && |s| == 27 && s[0..8] == U64(r.term) && s[8..10] == U16(r.candidateId)
      && s[10] == (if r.voteGranted then 1 else 0)
      && s[11..19] == U64(r.requestTerm) && s[19..27] == U64(r.timeInNano)
  {
  }

  /** The image of an append response, field by field. */
  lemma AppendRespLayout(r: AppendResp)
    ensures var s := EncodeAppendResp(r);
      |s| == 9 && s[0..8] == U64(r.term) && s[8] == (if r.success then 1 else 0)
  {
  }

  /** A request image is canonical: all 34-byte strings are images of requests, and only the first
      34 bytes matter to the decoder. */
  lemma VoteReqCanonical(s: seq<byte>)
    requires VOTE_REQ_SIZE <= |s|
    ensures EncodeVoteReq(DecodeVoteReq(s)) == s[..VOTE_REQ_SIZE]
  {
  }

  /** A response image is canonical only when its flag byte is a proper boolean. */
  lemma VoteRespCanonical(s: seq<byte>)
    requires |s| == VOTE_RESP_SIZE
    ensures EncodeVoteResp(DecodeVoteResp(s)) == s <==> s[10] <= 1
  {
    VoteRespLayout(DecodeVoteResp(s));
    if s[10] <= 1 {
      assert BoolByte(s[10] != 0) == s[10];
      assert s == s[0..8] + s[8..10] + [s[10]] + s[11..19] + s[19..27];
    }
  }

  method CompressVoteReq(r: VoteReq, dataPacket: DataPacket)
    modifies dataPacket
    ensures dataPacket.Live() && dataPacket.Content() == EncodeVoteReq(r)
    ensures fresh(dataPacket.body) && dataPacket.msgtype == old(dataPacket.msgtype)
  {
    dataPacket.length := VOTE_REQ_SIZE;
    dataPacket.body := new byte[VOTE_REQ_SIZE];
    dataPacket.owned := true;
    CopyInto(dataPacket.body, 0, EncodeVoteReq(r));
  }

  method DecompressVoteReq(dataPacket: DataPacket) returns (r: VoteReq)
    requires dataPacket.owned && VOTE_REQ_SIZE <= dataPacket.body.Length
    ensures r == DecodeVoteReq(dataPacket.body[..])
    ensures EncodeVoteReq(r) == dataPacket.body[..VOTE_REQ_SIZE]
  {
    r := DecodeVoteReq(dataPacket.body[..]);
    VoteReqCanonical(dataPacket.body[..]);
  }

  method CompressVoteResp(r: VoteResp, dataPacket: DataPacket)
    modifies dataPacket
    ensures dataPacket.Live() && dataPacket.Content() == EncodeVoteResp(r)
    ensures fresh(dataPacket.body) && dataPacket.msgtype == old(dataPacket.msgtype)
  {
    dataPacket.length := VOTE_RESP_SIZE;
    dataPacket.body := new byte[VOTE_RESP_SIZE];
    dataPacket.owned := true;
    CopyInto(dataPacket.body, 0, EncodeVoteResp(r));
  }

  method DecompressVoteResp(dataPacket: DataPacket) returns (r: VoteResp)
    requires dataPacket.owned && VOTE_RESP_SIZE <= dataPacket.body.Length
    ensures r == DecodeVoteResp(dataPacket.body[..])
  {
    r := DecodeVoteResp(dataPacket.body[..]);
  }

  method CompressAppendResp(r: AppendResp, dataPacket: DataPacket)
    modifies dataPacket
    ensures dataPacket.Live() && dataPacket.Content() == EncodeAppendResp(r)
    ensures fresh(dataPacket.body) && dataPacket.msgtype == old(dataPacket.msgtype)
  {
    dataPacket.length := APPEND_RESP_SIZE;
    dataPacket.body := new byte[APPEND_RESP_SIZE];
    dataPacket.owned := true;
    CopyInto(dataPacket.body, 0, EncodeAppendResp(r));
  }

  method DecompressAppendResp(dataPacket: DataPacket) returns (r: AppendResp)
    requires dataPacket.owned && APPEND_RESP_SIZE <= dataPacket.body.Length
    ensures r == DecodeAppendResp(dataPacket.body[..])
  {
    r := DecodeAppendResp(dataPacket.body[..]);
  }
}
