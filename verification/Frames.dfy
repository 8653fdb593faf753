// Length-prefixed frames: a little-endian 32-bit length and then the payload.
module Frames {

  newtype byte = x: int | 0 <= x < 256

  type Bytes = seq<byte>

  const MAX_FRAME_BYTES := 0x10_0000
  const TWO_32 := 0x1_0000_0000

  datatype ReadError = EOF | UnexpectedEOF | TooLarge

  datatype Read = Frame(payload: Bytes) | Failed(err: ReadError)

  // --- the 32-bit header ---

  function EncodeU32(n: int): (h: Bytes)
    requires 0 <= n < TWO_32
    ensures |h| == 4
  {
    [(n % 256) as byte, (n / 0x100 % 256) as byte, (n / 0x1_0000 % 256) as byte, (n / 0x100_0000) as byte]
  }

  function DecodeU32(h: Bytes): (n: int)
    requires |h| == 4
    ensures 0 <= n < TWO_32
  {
    h[0] as int + 0x100 * h[1] as int + 0x1_0000 * h[2] as int + 0x100_0000 * h[3] as int
  }

  lemma HeaderInverse(n: int)
    requires 0 <= n < TWO_32
    ensures DecodeU32(EncodeU32(n)) == n
    ensures var h := EncodeU32(n);
      h[0] as int + 0x100 * h[1] as int + 0x1_0000 * h[2] as int + 0x100_0000 * h[3] as int == n
  {
    var a, b := n / 0x100, n / 0x1_0000;
    assert b == a / 0x100 && n / 0x100_0000 == b / 0x100;
  }

  lemma HeaderSurjective(h: Bytes)
    requires |h| == 4
    ensures EncodeU32(DecodeU32(h)) == h
  {
    var n := DecodeU32(h);
    var a := h[1] as int + 0x100 * h[2] as int + 0x1_0000 * h[3] as int;
    var b := h[2] as int + 0x100 * h[3] as int;
    assert n == h[0] as int + 0x100 * a && n / 0x100 == a;
    assert a == h[1] as int + 0x100 * b && n / 0x1_0000 == a / 0x100 == b;
    assert n / 0x100_0000 == b / 0x100 == h[3] as int;
  }

  // --- one frame ---

  // The length check is made on the length truncated to 32 bits.
  predicate Accepts(payload: Bytes) {
    |payload| % TWO_32 <= MAX_FRAME_BYTES
  }

  function Encode(payload: Bytes): Bytes {
    EncodeU32(|payload| % TWO_32) + payload
  }

  // What one read returns, and how many bytes of the stream it takes.
  function DecodeAt(s: Bytes): (r: (Read, nat))
    ensures r.1 <= |s|
  {
    if s == [] then (Failed(EOF), 0)
    else if |s| < 4 then (Failed(UnexpectedEOF), |s|)
    else
      var n := DecodeU32(s[..4]);
      if n > MAX_FRAME_BYTES then (Failed(TooLarge), 4)
      else if |s| < 4 + n then (Failed(if |s| == 4 then EOF else UnexpectedEOF), |s|)
      else (Frame(s[4..4 + n]), 4 + n)
  }

  lemma DecodeEncode(payload: Bytes, rest: Bytes)
    requires |payload| <= MAX_FRAME_BYTES
    ensures DecodeAt(Encode(payload) + rest) == (Frame(payload), |Encode(payload)|)
  {
    hide EncodeU32, DecodeU32;
    var s := Encode(payload) + rest;
    HeaderInverse(|payload|);
    assert s[..4] == EncodeU32(|payload|);
    assert s[4..4 + |payload|] == payload;
  }

  // A frame that reads back was written by WriteFrame, byte for byte.
  lemma EncodeDecode(s: Bytes)
    requires DecodeAt(s).0.Frame?
    ensures |DecodeAt(s).0.payload| <= MAX_FRAME_BYTES
    ensures s == Encode(DecodeAt(s).0.payload) + s[DecodeAt(s).1..]
  {
    hide EncodeU32, DecodeU32;
    HeaderSurjective(s[..4]);
    var n := DecodeU32(s[..4]);
    assert s == s[..4] + s[4..4 + n] + s[4 + n..];
  }

  // An accepted payload reads back exactly if it is within the limit: a payload of 2^32
  // bytes or more can pass the check, and then only its beginning reads back.
  lemma RoundTripIffWithinLimit(payload: Bytes)
    requires Accepts(payload)
    ensures DecodeAt(Encode(payload)).0 == Frame(payload) <==> |payload| <= 0x10_0000
  {
    if |payload| <= MAX_FRAME_BYTES {
      DecodeEncode(payload, []);
      assert Encode(payload) + [] == Encode(payload);
    }
  }

  // Accepted is a length of at most 1 MiB modulo 2^32; a header that announces more is
  // refused before any of the payload is read.
  lemma Limits(payload: Bytes, s: Bytes)
    ensures Accepts(payload) <==> |payload| % 0x1_0000_0000 <= 0x10_0000
    ensures |s| >= 4 ==> (DecodeAt(s) == (Failed(TooLarge), 4) <==>
      s[0] as int + 0x100 * s[1] as int + 0x1_0000 * s[2] as int + 0x100_0000 * s[3] as int > 0x10_0000)
  {
  }

  // A payload of 2^32 bytes is accepted, and reads back as an empty one.
  lemma HugeReadsEmpty() returns (payload: Bytes)
    ensures Accepts(payload) && DecodeAt(Encode(payload)) == (Frame([]), 4) && payload != []
  {
    payload := seq(TWO_32, _ => 0);
    hide EncodeU32, DecodeU32;
    HeaderInverse(0);
    var s := Encode(payload);
    assert s[..4] == EncodeU32(0);
    assert s[4..4] == [];
  }

  // --- the stream objects ---

  class Stream {
    var data: Bytes

    constructor (data: Bytes)
      ensures this.data == data
    {
      this.data := data;
    }

    // binary.Write of the length, then the payload.
    method WriteFrame(payload: Bytes) returns (ok: bool)
      modifies this
      ensures ok == Accepts(payload)
      ensures data == if ok then old(data) + Encode(payload) else old(data)
    {
      ok := |payload| % TWO_32 <= MAX_FRAME_BYTES;
      if ok {
        data := data + EncodeU32(|payload| % TWO_32);
        data := data + payload;
        assert data == old(data) + Encode(payload);
      }
    }

    // io.ReadFull: fills buf from the front of the stream, as far as that goes.
    method ReadFull(buf: array<byte>) returns (err: ReadError, ok: bool)
      modifies this, buf
      ensures ok <==> buf.Length <= |old(data)|
      ensures ok ==> buf[..] == old(data)[..buf.Length] && data == old(data)[buf.Length..]
      ensures !ok ==> data == [] && err == if old(data) == [] then EOF else UnexpectedEOF
    {
      err := EOF;
      var n := 0;
      while n < buf.Length && data != []
        invariant 0 <= n <= buf.Length && n <= |old(data)|
        invariant data == old(data)[n..] && buf[..n] == old(data)[..n]
      {
        buf[n] := data[0];
        data := data[1..];
        n := n + 1;
      }
      ok := n == buf.Length;
      if !ok && n > 0 {
        err := UnexpectedEOF;
      }
      assert buf[..n] == if ok then buf[..] else buf[..n];
    }

    method ReadFrame() returns (r: Read)
      modifies this
      ensures r == DecodeAt(old(data)).0 && data == old(data)[DecodeAt(old(data)).1..]
    {
      var header := new byte[4];
      var err, ok := ReadFull(header);
      if !ok {
        return Failed(err);
      }
      assert header[..] == old(data)[..4];
      var n := DecodeU32(header[..]);
      if n > MAX_FRAME_BYTES {
        return Failed(TooLarge);
      }
      var buf := new byte[n];
      err, ok := ReadFull(buf);
      if !ok {
        return Failed(err);
      }
      assert buf[..] == old(data)[4..4 + n];
      r := Frame(buf[..]);
    }
  }

  // --- the whole stream ---

  function EncodeAll(payloads: seq<Bytes>): Bytes {
    if payloads == [] then [] else Encode(payloads[0]) + EncodeAll(payloads[1..])
  }

  // Reading frame after frame until a read fails.
  function ReadAll(s: Bytes): (seq<Bytes>, ReadError)
    decreases |s|
  {
    match DecodeAt(s).0
    case Failed(err) => ([], err)
    case Frame(payload) =>
      var rest := ReadAll(s[DecodeAt(s).1..]);
      ([payload] + rest.0, rest.1)
  }

  ghost predicate WithinLimit(payloads: seq<Bytes>) {
    forall p :: p in payloads ==> |p| <= MAX_FRAME_BYTES
  }

  // Frames in front of a stream read back, and the rest reads as it would alone.
  lemma {:induction false} ReadAllPrefix(payloads: seq<Bytes>, rest: Bytes)
    requires WithinLimit(payloads)
    ensures ReadAll(EncodeAll(payloads) + rest) == (payloads + ReadAll(rest).0, ReadAll(rest).1)
  {
    hide Encode, DecodeAt;
    if payloads == [] {
      assert EncodeAll(payloads) + rest == rest;
      assert payloads + ReadAll(rest).0 == ReadAll(rest).0;
    } else {
      var p, more := payloads[0], EncodeAll(payloads[1..]) + rest;
      assert p in payloads;
      ReadAllPrefix(payloads[1..], rest);
      DecodeEncode(p, more);
      var s := EncodeAll(payloads) + rest;
      assert s == Encode(p) + more;
      assert s[|Encode(p)|..] == more;
      assert [p] + (payloads[1..] + ReadAll(rest).0) == payloads + ReadAll(rest).0;
    }
  }

  lemma StreamRoundTrip(payloads: seq<Bytes>)
    requires WithinLimit(payloads)
    ensures ReadAll(EncodeAll(payloads)) == (payloads, EOF)
  {
    ReadAllPrefix(payloads, []);
    assert EncodeAll(payloads) + [] == EncodeAll(payloads);
    assert payloads + [] == payloads;
  }

  lemma CutKeepsHeader(payload: Bytes, k: nat)
    requires |payload| <= MAX_FRAME_BYTES && 4 <= k < |Encode(payload)|
    ensures Encode(payload)[..k][..4] == EncodeU32(|payload|)
  {
    hide EncodeU32;
    var header := EncodeU32(|payload|);
    assert (header + payload)[..k][..4] == (header + payload)[..4];
    assert (header + payload)[..4] == header;
  }

  // A frame cut short reads as an error: as a clean end of the stream exactly if nothing
  // or just its header is left, and as an unexpected end otherwise.
  lemma CutFrame(payload: Bytes, k: nat)
    requires |payload| <= MAX_FRAME_BYTES && k < |Encode(payload)|
    ensures ReadAll(Encode(payload)[..k]) == ([], if k == 0 || k == 4 then EOF else UnexpectedEOF)
  {
    var s := Encode(payload)[..k];
    if k >= 4 {
      CutKeepsHeader(payload, k);
      HeaderInverse(|payload|);
    }
  }

  // Wherever a stream is cut, the frames before the cut read back, and then comes the
  // error of the frame that was cut.
  lemma {:induction false} CutStream(payloads: seq<Bytes>, s: Bytes) returns (m: nat, k: nat)
    requires WithinLimit(payloads) && s < EncodeAll(payloads)
    ensures m < |payloads| && k < |Encode(payloads[m])|
    ensures |s| == |EncodeAll(payloads[..m])| + k
    ensures ReadAll(s) == (payloads[..m], if k == 0 || k == 4 then EOF else UnexpectedEOF)
  {
    hide Encode, DecodeAt;
    var p, rest := payloads[0], EncodeAll(payloads[1..]);
    assert p in payloads;
    if |s| < |Encode(p)| {
      m, k := 0, |s|;
      assert s == Encode(p)[..k];
      CutFrame(p, k);
    } else {
      var s1 := s[|Encode(p)|..];
      assert s == Encode(p) + s1;
      m, k := CutStream(payloads[1..], s1);
      DecodeEncode(p, s1);
      assert [p] + payloads[1..][..m] == payloads[..m + 1];
      assert payloads[..m + 1][0] == p && payloads[..m + 1][1..] == payloads[1..][..m];
      m := m + 1;
    }
  }
}
