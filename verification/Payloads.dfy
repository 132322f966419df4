/** Typed payloads that carry raw bytes over JSON as base64 text. */
module Payloads {
  import opened Wrappers
  import Base64

  const MAX_MESSAGE_BYTES: nat := 4 * 1024 * 1024
  const ENVELOPE_SLACK: nat := 16 * 1024
  const MAX_RAW_BYTES: nat := (MAX_MESSAGE_BYTES - ENVELOPE_SLACK) / 4 * 3

  /** One `session.output` notification. */
  datatype SessionOutputParams = SessionOutputParams(sessionId: string, seqNo: nat, dataBase64: string) {

    static function FromBytes(sessionId: string, seqNo: nat, data: seq<byte>): SessionOutputParams {
      SessionOutputParams(sessionId, seqNo, Base64.Encode(data))
    }

    function DataBytes(): Option<seq<byte>> {
      Base64.Decode(dataBase64)
    }
  }

  datatype PayloadTooLarge = PayloadTooLarge(actual: nat, limit: nat)

  /** Parameters of `sessions.write`. */
  datatype SessionsWriteParams = SessionsWriteParams(sessionId: string, dataBase64: string) {

    static function TryFromBytes(sessionId: string, data: seq<byte>): Result<SessionsWriteParams, PayloadTooLarge> {
      if |data| > MAX_RAW_BYTES then Err(PayloadTooLarge(|data|, MAX_RAW_BYTES))
      else Ok(SessionsWriteParams(sessionId, Base64.Encode(data)))
    }

    function DataBytes(): Option<seq<byte>> {
      Base64.Decode(dataBase64)
    }
  }

  /**
   A write is accepted exactly when its text leaves the envelope its slack under the message
   cap, and an accepted write delivers the very bytes it was built from.
   */
  lemma WriteAcceptedIffItFits(sessionId: string, data: seq<byte>)
    ensures var r := SessionsWriteParams.TryFromBytes(sessionId, data);
            (r.Ok? <==> |Base64.Encode(data)| + ENVELOPE_SLACK <= MAX_MESSAGE_BYTES) &&
            (r.Ok? ==> r.value.DataBytes() == Some(data) && r.value.sessionId == sessionId) &&
            (r.Err? ==> r.error.actual == |data| > r.error.limit)
  {
    hide Base64.Encode, Base64.Decode;
    Base64.EncodeLength(data);
    Base64.DecodeAfterEncode(data);
  }

  /** Two notifications with the same text carry the same bytes, and conversely. */
  lemma SameTextIffSameBytes(sessionId: string, seqNo: nat, a: seq<byte>, b: seq<byte>)
    ensures SessionOutputParams.FromBytes(sessionId, seqNo, a) == SessionOutputParams.FromBytes(sessionId, seqNo, b)
            <==> a == b
  {
    Base64.DecodeAfterEncode(a);
    Base64.DecodeAfterEncode(b);
  }
}

/** Splitting one PTY payload into wire-sized notifications. */
module Chunking {
  import opened Wrappers
  import opened Payloads
  import Base64

  const CHUNK_BYTES: nat := 64 * 1024

  /** Where the k-th piece starts. */
  function Offset(k: int): int {
    k * 65536
  }

  /** The number of notifications a payload of `n` bytes becomes; an empty payload is one heartbeat. */
  function ChunkCount(n: nat): (k: nat)
    ensures k > 0
    ensures n > 0 ==> Offset(k - 1) < n <= Offset(k)
  {
    if n == 0 then 1 else (n + CHUNK_BYTES - 1) / CHUNK_BYTES
  }

  /** The k-th slice of the payload. */
  function Slice(data: seq<byte>, k: nat): seq<byte>
    requires Offset(k) <= |data|
  {
    if Offset(k + 1) <= |data|
    then data[Offset(k)..Offset(k + 1)]
    else data[Offset(k)..]
  }

  /** What the chunker must emit. */
  function Chunks(sessionId: string, startSeq: nat, data: seq<byte>): (out: seq<SessionOutputParams>)
    ensures |out| == ChunkCount(|data|)
    ensures forall k :: 0 <= k < |out| ==> out[k].seqNo == startSeq + k
  {
    seq(ChunkCount(|data|), k requires 0 <= k < ChunkCount(|data|) =>
      SessionOutputParams.FromBytes(sessionId, startSeq + k, Slice(data, k)))
  }

  /** Where the k-th slice ends. */
  lemma SliceEnds(data: seq<byte>, k: nat)
    requires Offset(k) <= |data|
    ensures Slice(data, k) == data[Offset(k)..if Offset(k) + CHUNK_BYTES <= |data| then Offset(k) + CHUNK_BYTES else |data|]
    ensures Offset(k + 1) == Offset(k) + CHUNK_BYTES
  {
  }

  /** Splits a payload, numbering the pieces from `startSeq`. */
  method ChunkSessionOutput(sessionId: string, startSeq: nat, data: seq<byte>)
    returns (out: seq<SessionOutputParams>)
    ensures out == Chunks(sessionId, startSeq, data)
  {
    hide Base64.Encode;
    if data == [] {
      return [SessionOutputParams.FromBytes(sessionId, startSeq, [])];
    }
    out := [];
    var pos := 0;
    while pos < |data|
      invariant pos == if Offset(|out|) <= |data| then Offset(|out|) else |data|
      invariant Offset(|out| - 1) < |data|
      invariant forall k :: 0 <= k < |out| ==>
        out[k] == SessionOutputParams.FromBytes(sessionId, startSeq + k, Slice(data, k))
    {
      var end := if pos + CHUNK_BYTES <= |data| then pos + CHUNK_BYTES else |data|;
      SliceEnds(data, |out|);
      out := out + [SessionOutputParams.FromBytes(sessionId, startSeq + |out|, data[pos..end])];
      pos := end;
      hide Slice;
    }
    assert |out| == ChunkCount(|data|);
  }

  /** The bytes a run of notifications carries, in order; malformed text carries none. */
  ghost function DecodedBytes(chunks: seq<SessionOutputParams>): seq<byte>
  {
    if chunks == [] then []
    else DecodedBytes(chunks[..|chunks| - 1]) + ChunkBytes(chunks[|chunks| - 1])
  }

  ghost function ChunkBytes(p: SessionOutputParams): seq<byte> {
    match p.DataBytes() case Some(b) => b case None => []
  }

  lemma DecodedBytesOne(p: SessionOutputParams)
    ensures DecodedBytes([p]) == ChunkBytes(p)
  {
    assert [p][..0] == [];
  }

  lemma {:induction false} DecodedBytesConcat(a: seq<SessionOutputParams>, b: seq<SessionOutputParams>)
    ensures DecodedBytes(a + b) == DecodedBytes(a) + DecodedBytes(b)
  {
    hide ChunkBytes;
    if b == [] {
      assert a + b == a;
    } else {
      var b' := b[..|b| - 1];
      DecodedBytesConcat(a, b');
      assert (a + b)[..|a + b| - 1] == a + b';
    }
  }

  /** One piece: its bytes are the k-th slice, and its text length accounts for exactly those bytes. */
  lemma ChunkIsSlice(sessionId: string, startSeq: nat, data: seq<byte>, k: nat)
    requires k < ChunkCount(|data|)
    ensures var c := Chunks(sessionId, startSeq, data)[k];
            c.sessionId == sessionId && c.DataBytes() == Some(Slice(data, k)) &&
            Base64.DecodedLen(c.dataBase64) == |Slice(data, k)|
  {
    hide Base64.Encode, Base64.Decode, Base64.DecodedLen;
    Base64.DecodeAfterEncode(Slice(data, k));
    Base64.DecodedLenOfEncode(Slice(data, k));
  }

  lemma {:induction false} ChunksPrefix(sessionId: string, startSeq: nat, data: seq<byte>, k: nat)
    requires k <= ChunkCount(|data|)
    ensures DecodedBytes(Chunks(sessionId, startSeq, data)[..k])
            == if Offset(k) <= |data| then data[..Offset(k)] else data
  {
    hide Base64.Encode, Base64.Decode, Base64.DecodedLen, Chunks;
    if k > 0 {
      var cs := Chunks(sessionId, startSeq, data);
      ChunksPrefix(sessionId, startSeq, data, k - 1);
      ChunkIsSlice(sessionId, startSeq, data, k - 1);
      var front := cs[..k];
      assert front[..k - 1] == cs[..k - 1];
      assert DecodedBytes(front) == DecodedBytes(cs[..k - 1]) + Slice(data, k - 1);
    }
  }

  /** A well-made piece: full unless it is the last, and sized as its text length says. */
  ghost predicate GoodPiece(c: SessionOutputParams, sessionId: string, seqNo: nat, last: bool) {
    && c.seqNo == seqNo && c.sessionId == sessionId
    && c.DataBytes().Some?
    && |ChunkBytes(c)| <= CHUNK_BYTES
    && (!last ==> |ChunkBytes(c)| == CHUNK_BYTES)
    && Base64.DecodedLen(c.dataBase64) == |ChunkBytes(c)|
  }

  /**
   Concatenating the decoded pieces gives the payload back; pieces are numbered consecutively,
   none exceeds 64 KiB, only the last may be short, and the text-length arithmetic on each
   piece is its true size.
   */
  lemma ChunksCarryPayload(sessionId: string, startSeq: nat, data: seq<byte>)
    ensures DecodedBytes(Chunks(sessionId, startSeq, data)) == data
    ensures forall k :: 0 <= k < ChunkCount(|data|) ==>
              GoodPiece(Chunks(sessionId, startSeq, data)[k], sessionId, startSeq + k, k == ChunkCount(|data|) - 1)
  {
    hide Base64.Encode, Base64.Decode, Base64.DecodedLen, GoodPiece;
    var cs := Chunks(sessionId, startSeq, data);
    ChunksPrefix(sessionId, startSeq, data, |cs|);
    assert cs[..|cs|] == cs;
    forall k | 0 <= k < |cs|
      ensures GoodPiece(cs[k], sessionId, startSeq + k, k == |cs| - 1)
    {
      PieceIsGood(sessionId, startSeq, data, k);
    }
  }

  lemma PieceIsGood(sessionId: string, startSeq: nat, data: seq<byte>, k: nat)
    requires k < ChunkCount(|data|)
    ensures GoodPiece(Chunks(sessionId, startSeq, data)[k], sessionId, startSeq + k, k == ChunkCount(|data|) - 1)
  {
    hide Base64.Encode, Base64.Decode, Base64.DecodedLen;
    ChunkIsSlice(sessionId, startSeq, data, k);
  }
}
