/** The length-prefixed wire framing, and what a peer reads however the stream is sliced. */
module Framing {
  import opened Wrappers
  import opened Payloads

  const LENGTH_PREFIX_BYTES: nat := 4

  datatype IpcError =
    | FrameTooLarge(actual: nat, limit: nat)
    | EncodeTooLarge(actual: nat, limit: nat)

  /** An unsigned 32-bit number, most significant octet first. */
  function BigEndian(n: nat): seq<byte>
    requires n < 0x1_0000_0000
  {
    [n / 0x100_0000, n / 0x1_0000 % 256, n / 256 % 256, n % 256]
  }

  function FromBigEndian(b: seq<byte>): nat
    requires |b| >= 4
  {
    b[0] as int * 0x100_0000 + b[1] as int * 0x1_0000 + b[2] as int * 256 + b[3]
  }

  lemma BigEndianRoundTrip(n: nat)
    requires n < 0x1_0000_0000
    ensures FromBigEndian(BigEndian(n)) == n
  {
    var a := n / 256;
    var c := a / 256;
    assert n / 0x1_0000 == c;
    assert n / 0x100_0000 == c / 256;
  }

  lemma FromBigEndianRoundTrip(b: seq<byte>)
    requires |b| >= 4
    ensures FromBigEndian(b) < 0x1_0000_0000 && BigEndian(FromBigEndian(b)) == b[..4]
  {
    var n := FromBigEndian(b);
    assert n / 256 == b[0] as int * 0x1_0000 + b[1] as int * 256 + b[2];
    assert n / 256 / 256 == b[0] as int * 256 + b[1];
    assert n / 0x1_0000 == n / 256 / 256;
    assert n / 0x100_0000 == n / 256 / 256 / 256;
  }

  /** The number some octets write, the first the most significant: each octet more shifts it by eight bits. */
  function Numeral(b: seq<byte>): nat {
    if b == [] then 0 else Numeral(b[..|b| - 1]) * 256 + b[|b| - 1] as nat
  }

  lemma FourOctets(b: seq<byte>)
    requires |b| == 4
    ensures Numeral(b) == ((b[0] as nat * 256 + b[1] as nat) * 256 + b[2] as nat) * 256 + b[3] as nat
  {
    assert Numeral(b[..0]) == 0;
    assert Numeral(b[..1]) == b[0] as nat by { assert b[..1][..0] == b[..0]; }
    assert Numeral(b[..2]) == b[0] as nat * 256 + b[1] as nat by { assert b[..2][..1] == b[..1]; }
    assert Numeral(b[..3]) == Numeral(b[..2]) * 256 + b[2] as nat by { assert b[..3][..2] == b[..2]; }
  }

  /** The length prefix is the big-endian numeral of four octets, the one that writes the length. */
  lemma BigEndianWrites(n: nat)
    requires n < 0x1_0000_0000
    ensures |BigEndian(n)| == 4 && Numeral(BigEndian(n)) == n
    ensures forall b: seq<byte> :: |b| == 4 && Numeral(b) == n ==> b == BigEndian(n)
  {
    BigEndianRoundTrip(n);
    FourOctets(BigEndian(n));
    forall b: seq<byte> | |b| == 4 && Numeral(b) == n ensures b == BigEndian(n) {
      FourOctets(b);
      FromBigEndianRoundTrip(b);
      assert b[..4] == b;
    }
  }

  /** A length prefix is read as the numeral of the first four octets. */
  lemma PrefixReads(b: seq<byte>)
    requires |b| >= 4
    ensures FromBigEndian(b) == Numeral(b[..4])
  {
    FourOctets(b[..4]);
    hide Numeral;
  }

  datatype Parse = NeedMore | Frame(payload: seq<byte>, rest: seq<byte>) | TooLarge(actual: nat)

  /** What stands at the front of the buffer. */
  function ParseFrame(buf: seq<byte>): Parse {
    if |buf| < LENGTH_PREFIX_BYTES then NeedMore
    else
      var n := FromBigEndian(buf);
      if n > MAX_MESSAGE_BYTES then TooLarge(n)
      else if |buf| < LENGTH_PREFIX_BYTES + n then NeedMore
      else Frame(buf[4..4 + n], buf[4 + n..])
  }

  function FrameBytes(item: seq<byte>): seq<byte>
    requires |item| <= MAX_MESSAGE_BYTES
  {
    BigEndian(|item|) + item
  }

  /** A growable byte buffer, consumed from the front and extended at the back. */
  class ByteBuffer {
    var data: seq<byte>

    constructor ()
      ensures data == []
    {
      data := [];
    }

    method Advance(n: nat)
      requires n <= |data|
      modifies this
      ensures data == old(data)[n..]
    {
      data := data[n..];
    }

    method SplitTo(n: nat) returns (front: seq<byte>)
      requires n <= |data|
      modifies this
      ensures front == old(data)[..n] && data == old(data)[n..]
    {
      front := data[..n];
      data := data[n..];
    }

    method Put(bytes: seq<byte>)
      modifies this
      ensures data == old(data) + bytes
    {
      data := data + bytes;
    }
  }

  /** Takes one frame off the buffer, if a whole one is there; an oversize header leaves the buffer alone. */
  method Decode(src: ByteBuffer) returns (r: Result<Option<seq<byte>>, IpcError>)
    modifies src
    ensures match ParseFrame(old(src.data))
            case NeedMore => r == Ok(None) && src.data == old(src.data)
            case TooLarge(n) => r == Err(FrameTooLarge(n, MAX_MESSAGE_BYTES)) && src.data == old(src.data)
            case Frame(payload, rest) => r == Ok(Some(payload)) && src.data == rest
  {
    if |src.data| < LENGTH_PREFIX_BYTES {
      return Ok(None);
    }
    var frameLen := FromBigEndian(src.data[..LENGTH_PREFIX_BYTES]);
    if frameLen > MAX_MESSAGE_BYTES {
      return Err(FrameTooLarge(frameLen, MAX_MESSAGE_BYTES));
    }
    if |src.data| < LENGTH_PREFIX_BYTES + frameLen {
      return Ok(None);
    }
    ghost var was := src.data;
    src.Advance(LENGTH_PREFIX_BYTES);
    assert was[4..][..frameLen] == was[4..4 + frameLen] && was[4..][frameLen..] == was[4 + frameLen..];
    var payload := src.SplitTo(frameLen);
    r := Ok(Some(payload));
  }

  /** Appends one frame, or refuses an oversize payload and appends nothing. */
  method Encode(item: seq<byte>, dst: ByteBuffer) returns (r: Result<(), IpcError>)
    modifies dst
    ensures r.Ok? <==> |item| <= MAX_MESSAGE_BYTES
    ensures r.Ok? ==> dst.data == old(dst.data) + FrameBytes(item)
    ensures r.Err? ==> dst.data == old(dst.data) && r.error == EncodeTooLarge(|item|, MAX_MESSAGE_BYTES)
  {
    var n := |item|;
    if n > MAX_MESSAGE_BYTES {
      return Err(EncodeTooLarge(n, MAX_MESSAGE_BYTES));
    }
    dst.Put(BigEndian(n));
    dst.Put(item);
    assert dst.data == old(dst.data) + FrameBytes(item);
    r := Ok(());
  }

  /** Everything greedy decoding takes off a buffer, what it leaves, and the oversize length that stopped it, if one did. */
  datatype Drained = Drained(frames: seq<seq<byte>>, rest: seq<byte>, oversize: Option<nat>)

  function Drain(buf: seq<byte>): Drained
    decreases |buf|
  {
    match ParseFrame(buf)
    case NeedMore => Drained([], buf, None)
    case TooLarge(n) => Drained([], buf, Some(n))
    case Frame(payload, rest) =>
      var d := Drain(rest);
      Drained([payload] + d.frames, d.rest, d.oversize)
  }

  /** A reader's state as pieces arrive: once an oversize header is met the connection is given up. */
  function Feed(d: Drained, piece: seq<byte>): Drained {
    if d.oversize.Some? then d
    else
      var more := Drain(d.rest + piece);
      Drained(d.frames + more.frames, more.rest, more.oversize)
  }

  function FeedAll(pieces: seq<seq<byte>>): Drained {
    if pieces == [] then Drained([], [], None)
    else Feed(FeedAll(pieces[..|pieces| - 1]), pieces[|pieces| - 1])
  }

  function Joined(pieces: seq<seq<byte>>): seq<byte> {
    if pieces == [] then [] else Joined(pieces[..|pieces| - 1]) + pieces[|pieces| - 1]
  }

  predicate AllFit(items: seq<seq<byte>>) {
    forall k :: 0 <= k < |items| ==> |items[k]| <= MAX_MESSAGE_BYTES
  }

  function EncodeAll(items: seq<seq<byte>>): seq<byte>
    requires AllFit(items)
  {
    if items == [] then [] else FrameBytes(items[0]) + EncodeAll(items[1..])
  }

  /** More bytes never change a decision already made at the front. */
  lemma ParseFrameExtends(a: seq<byte>, b: seq<byte>)
    ensures match ParseFrame(a)
            case NeedMore => true
            case TooLarge(n) => ParseFrame(a + b) == TooLarge(n)
            case Frame(payload, rest) => ParseFrame(a + b) == Frame(payload, rest + b)
  {
    if |a| >= LENGTH_PREFIX_BYTES {
      assert FromBigEndian(a + b) == FromBigEndian(a);
      var n := FromBigEndian(a);
      if |a| >= 4 + n {
        assert (a + b)[4..4 + n] == a[4..4 + n];
        assert (a + b)[4 + n..] == a[4 + n..] + b;
      }
    }
  }

  /** Decoding a stream in two slices is decoding it whole. */
  lemma {:induction false} DrainSplits(a: seq<byte>, b: seq<byte>)
    ensures var d, whole := Drain(a), Drain(a + b);
            if d.oversize.Some? then whole == Drained(d.frames, d.rest + b, d.oversize)
            else whole == Feed(d, b)
    decreases |a|
  {
    hide FromBigEndian;
    ParseFrameExtends(a, b);
    match ParseFrame(a)
    case NeedMore =>
      assert Drain(a).frames + Drain(a + b).frames == Drain(a + b).frames;
    case TooLarge(n) =>
    case Frame(payload, rest) =>
      DrainSplits(rest, b);
      var d := Drain(rest);
      if d.oversize.None? {
        var more := Drain(d.rest + b);
        assert [payload] + (d.frames + more.frames) == [payload] + d.frames + more.frames;
      }
  }

  /**
   However a stream is cut into pieces, the reader ends with the frames, the leftover and the
   verdict of decoding it in one go; after an oversize header only the leftover lacks the
   bytes that were no longer read.
   */
  lemma {:induction false} SlicingIndependent(pieces: seq<seq<byte>>)
    ensures var d, whole := FeedAll(pieces), Drain(Joined(pieces));
            d.frames == whole.frames && d.oversize == whole.oversize && d.rest <= whole.rest &&
            (d.oversize.None? ==> d.rest == whole.rest)
  {
    if pieces != [] {
      hide ParseFrame;
      var front, last := pieces[..|pieces| - 1], pieces[|pieces| - 1];
      SlicingIndependent(front);
      DrainSplits(Joined(front), last);
    }
  }

  lemma ParseFrameBytes(item: seq<byte>, tail: seq<byte>)
    requires |item| <= MAX_MESSAGE_BYTES
    ensures ParseFrame(FrameBytes(item) + tail) == Frame(item, tail)
  {
    BigEndianRoundTrip(|item|);
    var buf := FrameBytes(item) + tail;
    hide BigEndian;
    assert FromBigEndian(buf) == FromBigEndian(BigEndian(|item|));
    assert buf[4..4 + |item|] == item;
    assert buf[4 + |item|..] == tail;
  }

  /** Encoded payloads come back exactly, in order, whatever follows them on the wire. */
  lemma {:induction false} DrainAfterEncode(items: seq<seq<byte>>, tail: seq<byte>)
    requires AllFit(items)
    ensures Drain(EncodeAll(items) + tail)
            == Drained(items + Drain(tail).frames, Drain(tail).rest, Drain(tail).oversize)
    decreases |items|
  {
    hide ParseFrame, FrameBytes;
    if items == [] {
      assert EncodeAll(items) + tail == tail;
      assert items + Drain(tail).frames == Drain(tail).frames;
    } else {
      DrainAfterEncode(items[1..], tail);
      ParseFrameBytes(items[0], EncodeAll(items[1..]) + tail);
      assert EncodeAll(items) + tail == FrameBytes(items[0]) + (EncodeAll(items[1..]) + tail);
      assert [items[0]] + (items[1..] + Drain(tail).frames) == items + Drain(tail).frames;
    }
  }

  /** A frame taken off the front re-encodes to exactly the bytes that were consumed. */
  lemma FrameIsFront(buf: seq<byte>)
    requires ParseFrame(buf).Frame?
    ensures |ParseFrame(buf).payload| <= MAX_MESSAGE_BYTES
    ensures buf == FrameBytes(ParseFrame(buf).payload) + ParseFrame(buf).rest
    ensures |ParseFrame(buf).rest| < |buf|
  {
    FromBigEndianRoundTrip(buf);
    hide FromBigEndian, BigEndian;
    var n := |ParseFrame(buf).payload|;
    assert buf == buf[..4] + buf[4..4 + n] + buf[4 + n..];
  }

  lemma EncodeAllCons(item: seq<byte>, items: seq<seq<byte>>)
    requires |item| <= MAX_MESSAGE_BYTES && AllFit(items)
    ensures AllFit([item] + items) && EncodeAll([item] + items) == FrameBytes(item) + EncodeAll(items)
  {
    assert ([item] + items)[1..] == items;
  }

  /**
   Decoding loses nothing: the frames re-encoded and the leftover are the stream. The leftover
   is an incomplete frame, or starts with the oversize header that stopped decoding.
   */
  lemma {:induction false} EncodeAfterDrain(buf: seq<byte>)
    ensures var d := Drain(buf);
            AllFit(d.frames) && EncodeAll(d.frames) + d.rest == buf &&
            ParseFrame(d.rest) == match d.oversize case None => NeedMore case Some(n) => TooLarge(n)
    decreases |buf|
  {
    hide ParseFrame, BigEndian, EncodeAll;
    match ParseFrame(buf)
    case Frame(payload, rest) =>
      FrameIsFront(buf);
      EncodeAfterDrain(rest);
      hide FrameBytes, AllFit;
      EncodeAllCons(payload, Drain(rest).frames);
      var d := Drain(rest);
      assert FrameBytes(payload) + (EncodeAll(d.frames) + d.rest) == FrameBytes(payload) + EncodeAll(d.frames) + d.rest;
    case _ =>
      NoFrames();
      assert [] + buf == buf;
  }

  lemma NoFrames()
    ensures AllFit([]) && EncodeAll([]) == []
  {
  }

  /**
   The wire is unambiguous: a stream is some payloads' frames followed by a proper beginning of
   a frame exactly when a reader fed it in any pieces has those payloads and that leftover.
   */
  lemma ReadsExactlyWhatWasWritten(items: seq<seq<byte>>, leftover: seq<byte>, pieces: seq<seq<byte>>)
    requires AllFit(items)
    ensures FeedAll(pieces) == Drained(items, leftover, None)
            <==> Joined(pieces) == EncodeAll(items) + leftover && ParseFrame(leftover) == NeedMore
  {
    hide ParseFrame, EncodeAll, FeedAll, Joined;
    SlicingIndependent(pieces);
    EncodeAfterDrain(Joined(pieces));
    DrainAfterEncode(items, leftover);
    assert items + [] == items;
  }

  /** An oversize header after some payloads: the reader has returned exactly those payloads and stops. */
  lemma OversizeStopsAfterFrames(items: seq<seq<byte>>, bad: seq<byte>, pieces: seq<seq<byte>>)
    requires AllFit(items) && ParseFrame(bad).TooLarge? && Joined(pieces) == EncodeAll(items) + bad
    ensures FeedAll(pieces).frames == items && FeedAll(pieces).oversize == Some(ParseFrame(bad).actual)
  {
    hide EncodeAll, FeedAll, Joined, FromBigEndian;
    SlicingIndependent(pieces);
    DrainAfterEncode(items, bad);
    assert items + [] == items;
  }
}
