/** The 64-byte frame codec: round trip, exact consumption, prefixes, and re-encoding of what is accepted. */
module Frames {
  import opened Base
  import opened LittleEndian
  import Spec
  import Crc32c

  // ---- Fixed-width words, back to back ------------------------------------------------------------------

  function Total(widths: seq<nat>): nat {
    if widths == [] then 0 else widths[0] + Total(widths[1..])
  }

  function Pack(widths: seq<nat>, values: seq<nat>): (s: seq<byte>)
    requires |values| == |widths|
    ensures |s| == Total(widths)
  {
    if widths == [] then [] else Le(widths[0], values[0]) + Pack(widths[1..], values[1..])
  }

  function Unpack(widths: seq<nat>, data: seq<byte>): (values: seq<nat>)
    requires |data| >= Total(widths)
    ensures |values| == |widths|
  {
    if widths == [] then [] else [FromLe(data[..widths[0]])] + Unpack(widths[1..], data[widths[0]..])
  }

  ghost predicate Fit(widths: seq<nat>, values: seq<nat>) {
    |values| == |widths| && forall i :: 0 <= i < |widths| ==> values[i] < Power256(widths[i])
  }

  lemma {:induction false} UnpackOfPack(widths: seq<nat>, values: seq<nat>, rest: seq<byte>)
    requires Fit(widths, values)
    ensures Unpack(widths, Pack(widths, values) + rest) == values
  {
    if widths != [] {
      var data := Pack(widths, values) + rest;
      assert data[..widths[0]] == Le(widths[0], values[0]);
      assert data[widths[0]..] == Pack(widths[1..], values[1..]) + rest;
      LeRoundTrip(widths[0], values[0]);
      UnpackOfPack(widths[1..], values[1..], rest);
    }
  }

  lemma {:induction false} PackOfUnpack(widths: seq<nat>, data: seq<byte>)
    requires |data| >= Total(widths)
    ensures Fit(widths, Unpack(widths, data)) && Pack(widths, Unpack(widths, data)) == data[..Total(widths)]
  {
    if widths != [] {
      FromLeRoundTrip(data[..widths[0]]);
      PackOfUnpack(widths[1..], data[widths[0]..]);
      assert data[..Total(widths)] == data[..widths[0]] + data[widths[0]..][..Total(widths[1..])];
    }
  }

  lemma {:induction false} UnpackOfPrefix(widths: seq<nat>, data: seq<byte>, rest: seq<byte>)
    requires |data| >= Total(widths)
    ensures Unpack(widths, data + rest) == Unpack(widths, data)
  {
    if widths != [] {
      assert (data + rest)[..widths[0]] == data[..widths[0]];
      assert (data + rest)[widths[0]..] == data[widths[0]..] + rest;
      UnpackOfPrefix(widths[1..], data[widths[0]..], rest);
    }
  }

  // ---- The header ------------------------------------------------------------------------------------------

  const MAGIC: nat := 0x42464E45
  const VERSION: nat := 1
  const HEADER_BYTES: nat := 64

  /** Magic, version, header size, type, flags, payload length, correlation, epoch, boot, sequence, reserved, checksum, trailer. */
  ghost predicate IsLayout(w: seq<nat>) {
    && |w| == 13
    && w[0] == 4 && w[1] == 2 && w[2] == 2 && w[3] == 2 && w[4] == 2 && w[5] == 4
    && w[6] == 8 && w[7] == 8 && w[8] == 8 && w[9] == 8 && w[10] == 4 && w[11] == 4 && w[12] == 8
  }

  function Layout(): (w: seq<nat>)
    ensures IsLayout(w) && Total(w) == HEADER_BYTES
  {
    var w: seq<nat> := [4, 2, 2, 2, 2, 4, 8, 8, 8, 8, 4, 4, 8];
    LayoutTotal(w);
    w
  }

  const CHECKSUM_FIELD: nat := 11

  lemma TotalStep(w: seq<nat>, i: nat)
    requires i < |w|
    ensures Total(w[i..]) == w[i] + Total(w[i + 1..])
  {
    assert w[i..][1..] == w[i + 1..];
  }

  lemma LayoutTotal(w: seq<nat>)
    requires IsLayout(w)
    ensures Total(w) == HEADER_BYTES
  {
    assert w[0..] == w && w[13..] == [];
    TotalStep(w, 0);
    TotalStep(w, 1);
    TotalStep(w, 2);
    TotalStep(w, 3);
    TotalStep(w, 4);
    TotalStep(w, 5);
    TotalStep(w, 6);
    TotalStep(w, 7);
    TotalStep(w, 8);
    TotalStep(w, 9);
    TotalStep(w, 10);
    TotalStep(w, 11);
    TotalStep(w, 12);
  }

  /** What both ends of a channel are configured with: the limits, and the checksum of header and payload. */
  datatype Wire = Wire(limits: Spec.Limits, crc: (seq<byte>, seq<byte>) -> nat)

  /** A checksum is a 32-bit word. */
  ghost predicate Sealing(wire: Wire) {
    forall header, payload {:trigger wire.crc(header, payload)} :: wire.crc(header, payload) <= U32_MAX
  }

  datatype Frame = Frame(
    version: nat,
    kind: nat,
    flags: nat,
    correlation: nat,
    epoch: nat,
    workerBoot: nat,
    sequence: nat,
    payload: seq<byte>)

  predicate KnownKind(kind: nat) {
    1 <= kind <= 27
  }

  /** The ranges of the frame's machine types. */
  predicate Typed(f: Frame) {
    && KnownKind(f.kind) && f.flags <= U16_MAX && f.correlation <= U64_MAX && f.epoch <= U64_MAX
    && f.workerBoot <= U64_MAX && f.sequence <= U64_MAX
  }

  function HeaderValues(f: Frame, checksum: nat): (v: seq<nat>)
    ensures |v| == 13
  {
    [MAGIC, VERSION, HEADER_BYTES, f.kind, f.flags, |f.payload|, f.correlation, f.epoch, f.workerBoot, f.sequence, 0, checksum, 0]
  }

  /** The checksum of a header whose own checksum field is cleared, extended by the payload. */
  function ChecksumOver(wire: Wire, values: seq<nat>, payload: seq<byte>): (c: nat)
    requires |values| == 13
  {
    wire.crc(Pack(Layout(), values[CHECKSUM_FIELD := 0]), payload)
  }

  function Bytes(wire: Wire, f: Frame): (s: seq<byte>) {
    Pack(Layout(), HeaderValues(f, ChecksumOver(wire, HeaderValues(f, 0), f.payload))) + f.payload
  }

  function Encode(f: Frame, wire: Wire): Outcome<seq<byte>> {
    if |f.payload| > wire.limits.maxFrameBytes then Err(PayloadTooLarge)
    else if HEADER_BYTES + |f.payload| > wire.limits.maxFrameBytes || HEADER_BYTES + |f.payload| > U32_MAX then Err(PayloadTooLarge)
    else Ok(Bytes(wire, f))
  }

  // ---- Decoding ------------------------------------------------------------------------------------------------

  datatype Decoded = NeedMoreData | Failed(error: Error) | Complete(frame: Frame, consumed: nat)

  /** Why a header is refused, before the payload is even looked at. */
  function HeaderFault(v: seq<nat>, wire: Wire): Option<Error>
    requires |v| == 13
  {
    if v[0] != MAGIC then Some(MalformedFrame)
    else if v[1] != VERSION then Some(UnsupportedVersion)
    else if v[2] != HEADER_BYTES then Some(MalformedFrame)
    else if !KnownKind(v[3]) then Some(InvalidEnumValue)
    else if v[5] > wire.limits.maxFrameBytes || v[5] + HEADER_BYTES > wire.limits.maxFrameBytes then Some(PayloadTooLarge)
    else if v[10] != 0 || v[12] != 0 then Some(MalformedFrame)
    else None
  }

  function FrameOf(v: seq<nat>, payload: seq<byte>): Frame
    requires |v| == 13
  {
    Frame(v[1], v[3], v[4], v[6], v[7], v[8], v[9], payload)
  }

  function Header(buffer: seq<byte>): (v: seq<nat>)
    requires |buffer| >= HEADER_BYTES
    ensures |v| == 13
  {
    Unpack(Layout(), buffer)
  }

  function Decode(buffer: seq<byte>, wire: Wire): (d: Decoded)
    ensures d.Complete? ==> d.consumed <= |buffer|
  {
    if |buffer| < HEADER_BYTES then NeedMoreData
    else
      var v := Header(buffer);
      match HeaderFault(v, wire)
      case Some(error) => Failed(error)
      case None =>
        var total := HEADER_BYTES + v[5];
        if |buffer| < total then NeedMoreData
        else
          var payload := buffer[HEADER_BYTES..total];
          if ChecksumOver(wire, v, payload) != v[CHECKSUM_FIELD] then Failed(ChecksumMismatch)
          else Complete(FrameOf(v, payload), total)
  }

  // ---- Round trips ----------------------------------------------------------------------------------------------

  lemma HeaderFits(f: Frame, checksum: nat)
    requires Typed(f) && |f.payload| <= U32_MAX && checksum <= U32_MAX
    ensures Fit(Layout(), HeaderValues(f, checksum))
  {
    Widths();
  }

  lemma HeaderOfPacked(v: seq<nat>, tail: seq<byte>)
    requires Fit(Layout(), v)
    ensures |Pack(Layout(), v)| == HEADER_BYTES && Header(Pack(Layout(), v) + tail) == v
  {
    UnpackOfPack(Layout(), v, tail);
  }

  /** Decoding a packed header with its payload only depends on the checksum. */
  lemma DecodePacked(v: seq<nat>, payload: seq<byte>, rest: seq<byte>, wire: Wire, buffer: seq<byte>)
    requires |v| == 13 && Fit(Layout(), v) && HeaderFault(v, wire).None? && v[5] == |payload|
    requires buffer == Pack(Layout(), v) + payload + rest
    ensures Decode(buffer, wire) == if ChecksumOver(wire, v, payload) != v[CHECKSUM_FIELD] then Failed(ChecksumMismatch)
                                      else Complete(FrameOf(v, payload), HEADER_BYTES + |payload|)
  {
    var header := Pack(Layout(), v);
    HeaderOfPacked(v, payload + rest);
    MiddleOf(header, payload, rest);
    assert Header(buffer) == v;
    assert buffer[HEADER_BYTES..HEADER_BYTES + v[5]] == payload;
  }

  lemma MiddleOf(a: seq<byte>, b: seq<byte>, c: seq<byte>)
    ensures a + b + c == a + (b + c) && |a + b + c| == |a| + |b| + |c|
    ensures (a + b + c)[|a|..|a| + |b|] == b
  {
  }

  /** A packed header whose payload has not arrived in full asks for more. */
  lemma DecodePackedPrefix(v: seq<nat>, part: seq<byte>, wire: Wire, buffer: seq<byte>)
    requires |v| == 13 && Fit(Layout(), v) && HeaderFault(v, wire).None? && |part| < v[5]
    requires buffer == Pack(Layout(), v) + part
    ensures Decode(buffer, wire) == NeedMoreData
  {
    HeaderOfPacked(v, part);
  }

  lemma ChecksumIgnoresItsField(wire: Wire, f: Frame, checksum: nat)
    ensures ChecksumOver(wire, HeaderValues(f, checksum), f.payload) == ChecksumOver(wire, HeaderValues(f, 0), f.payload)
  {
    assert HeaderValues(f, checksum)[CHECKSUM_FIELD := 0] == HeaderValues(f, 0)[CHECKSUM_FIELD := 0];
  }

  lemma HeaderIsAccepted(f: Frame, checksum: nat, wire: Wire)
    requires Typed(f) && HEADER_BYTES + |f.payload| <= wire.limits.maxFrameBytes
    ensures HeaderFault(HeaderValues(f, checksum), wire).None?
    ensures FrameOf(HeaderValues(f, checksum), f.payload) == f.(version := VERSION)
  {
  }

  /** The bytes of an encodable frame: a packed header that will be accepted, then the payload. */
  lemma EncodedShape(f: Frame, wire: Wire) returns (v: seq<nat>)
    requires Sealing(wire) && Typed(f) && Encode(f, wire).Ok?
    ensures |v| == 13 && Fit(Layout(), v) && HeaderFault(v, wire).None? && v[5] == |f.payload|
    ensures FrameOf(v, f.payload) == f.(version := VERSION) && ChecksumOver(wire, v, f.payload) == v[CHECKSUM_FIELD]
    ensures Encode(f, wire).value == Pack(Layout(), v) + f.payload && |Encode(f, wire).value| == HEADER_BYTES + |f.payload|
  {
    var checksum := ChecksumOver(wire, HeaderValues(f, 0), f.payload);
    v := HeaderValues(f, checksum);
    HeaderFits(f, checksum);
    HeaderIsAccepted(f, checksum, wire);
    ChecksumIgnoresItsField(wire, f, checksum);
  }

  /** Decoding what was encoded gives the frame back and consumes exactly its bytes, whatever follows. */
  lemma DecodeOfEncode(f: Frame, wire: Wire, rest: seq<byte>)
    requires Sealing(wire) && Typed(f) && Encode(f, wire).Ok?
    ensures Decode(Encode(f, wire).value + rest, wire) == Complete(f.(version := VERSION), |Encode(f, wire).value|)
  {
    var v := EncodedShape(f, wire);
    DecodePacked(v, f.payload, rest, wire, Encode(f, wire).value + rest);
  }

  /** Every strict prefix of a frame asks for more data: it is never refused and never mistaken for another frame. */
  lemma StrictPrefixNeedsMore(f: Frame, wire: Wire, n: nat)
    requires Sealing(wire) && Typed(f) && Encode(f, wire).Ok? && n < |Encode(f, wire).value|
    ensures Decode(Encode(f, wire).value[..n], wire) == NeedMoreData
  {
    var v := EncodedShape(f, wire);
    if n >= HEADER_BYTES {
      PrefixOfConcat(Pack(Layout(), v), f.payload, n);
      DecodePackedPrefix(v, f.payload[..n - HEADER_BYTES], wire, Encode(f, wire).value[..n]);
    }
  }

  lemma PrefixOfConcat(a: seq<byte>, b: seq<byte>, n: nat)
    requires |a| <= n <= |a| + |b|
    ensures (a + b)[..n] == a + b[..n - |a|]
  {
  }

  /** The values of an accepted header are those of the frame it describes. */
  lemma AcceptedHeader(v: seq<nat>, payload: seq<byte>, wire: Wire)
    requires |v| == 13 && Fit(Layout(), v) && HeaderFault(v, wire).None? && v[5] == |payload|
    ensures HeaderValues(FrameOf(v, payload), v[CHECKSUM_FIELD]) == v
    ensures Typed(FrameOf(v, payload)) && FrameOf(v, payload).version == VERSION
  {
    Widths();
  }

  lemma ReencodedHeader(v: seq<nat>, payload: seq<byte>, wire: Wire)
    requires |v| == 13 && Fit(Layout(), v) && HeaderFault(v, wire).None? && v[5] == |payload|
    requires ChecksumOver(wire, v, payload) == v[CHECKSUM_FIELD] && wire.limits.maxFrameBytes <= U32_MAX
    ensures Encode(FrameOf(v, payload), wire) == Ok(Pack(Layout(), v) + payload)
  {
    var f := FrameOf(v, payload);
    AcceptedHeader(v, payload, wire);
    ChecksumIgnoresItsField(wire, f, v[CHECKSUM_FIELD]);
  }

  /** Whatever is accepted re-encodes to exactly the bytes that were consumed. */
  lemma EncodeOfDecode(buffer: seq<byte>, wire: Wire)
    requires Decode(buffer, wire).Complete? && wire.limits.maxFrameBytes <= U32_MAX
    ensures var d := Decode(buffer, wire);
            && d.consumed <= |buffer| && Typed(d.frame) && d.frame.version == VERSION
            && Encode(d.frame, wire) == Ok(buffer[..d.consumed])
  {
    var v := Header(buffer);
    PackOfUnpack(Layout(), buffer);
    var payload := buffer[HEADER_BYTES..HEADER_BYTES + v[5]];
    AcceptedHeader(v, payload, wire);
    ReencodedHeader(v, payload, wire);
    assert buffer[..HEADER_BYTES + v[5]] == buffer[..HEADER_BYTES] + payload;
  }

  /** A buffer that needs more data is never larger than a frame may be. */
  lemma WaitingBufferIsBounded(buffer: seq<byte>, wire: Wire)
    requires wire.limits.Valid() && Decode(buffer, wire) == NeedMoreData
    ensures |buffer| < wire.limits.maxFrameBytes
  {
  }

  // ---- The checksum of the runtime -----------------------------------------------------------------------------------

  /** Header first, then the payload on top of the header's checksum. */
  function Crc(header: seq<byte>, payload: seq<byte>): (c: nat)
    ensures c <= U32_MAX
  {
    RegisterRange();
    Crc32c.ToNat(Crc32c.Extend(Crc32c.Checksum(header), payload))
  }

  lemma RegisterRange()
    ensures Crc32c.Power2(32) == U32_MAX + 1
  {
    assert Crc32c.Power2(8) == 0x100;
    assert Crc32c.Power2(16) == 0x1_0000;
    assert Crc32c.Power2(24) == 0x100_0000;
  }

  function StandardWire(limits: Spec.Limits): Wire {
    Wire(limits, (header: seq<byte>, payload: seq<byte>) => Crc(header, payload))
  }

  lemma StandardWireSeals(limits: Spec.Limits)
    ensures Sealing(StandardWire(limits))
  {
  }

  /** Header-then-payload checksumming is the checksum of header and payload together, bit-serial by the book. */
  lemma FrameChecksumIsCrc32c(header: seq<byte>, payload: seq<byte>)
    ensures Crc(header, payload) == Crc32c.ToNat(Crc32c.SerialChecksum(header + payload))
  {
    Crc32c.ExtendIsConcatenation(Crc32c.Zeros(32), header, payload);
    Crc32c.ChecksumRefinesSerial(header + payload);
  }

  // ---- The codec as the runtime performs it ------------------------------------------------------------------------------

  method StoreWords(out: array<byte>, widths: seq<nat>, values: seq<nat>)
    requires |values| == |widths| && Total(widths) <= out.Length
    modifies out
    ensures out[..] == Pack(widths, values) + old(out[Total(widths)..])
  {
    var offset := 0;
    assert widths[0..] == widths && values[0..] == values;
    for k := 0 to |widths|
      invariant 0 <= offset <= offset + Total(widths[k..]) == Total(widths) <= out.Length
      invariant Pack(widths, values) == out[..offset] + Pack(widths[k..], values[k..])
      invariant out[offset..] == old(out[offset..])
    {
      TotalStep(widths, k);
      assert widths[k..][1..] == widths[k + 1..] && values[k..][1..] == values[k + 1..];
      ghost var before := out[..];
      StoreLe(out, offset, widths[k], values[k]);
      assert out[..offset + widths[k]] == before[..offset] + Le(widths[k], values[k]);
      assert out[offset + widths[k]..] == before[offset + widths[k]..];
      assert before[offset + widths[k]..] == before[offset..][widths[k]..];
      assert old(out[offset..])[widths[k]..] == old(out[offset + widths[k]..]);
      offset := offset + widths[k];
    }
    assert widths[|widths|..] == [] && values[|widths|..] == [];
    assert out[..] == out[..offset] + out[offset..];
  }

  method LoadWords(data: seq<byte>, widths: seq<nat>) returns (values: seq<nat>)
    requires |data| >= Total(widths)
    ensures values == Unpack(widths, data)
  {
    values := [];
    var offset := 0;
    assert widths[0..] == widths && data[0..] == data;
    for k := 0 to |widths|
      invariant 0 <= offset <= offset + Total(widths[k..]) == Total(widths) <= |data|
      invariant Unpack(widths, data) == values + Unpack(widths[k..], data[offset..])
    {
      TotalStep(widths, k);
      assert widths[k..][1..] == widths[k + 1..];
      var w := widths[k];
      assert data[offset..][..w] == data[offset..offset + w] && data[offset..][w..] == data[offset + w..];
      var value := LoadLe(data, offset, w);
      values := values + [value];
      offset := offset + w;
    }
    assert widths[|widths|..] == [];
  }

  method EncodeFrame(f: Frame, wire: Wire) returns (out: Outcome<seq<byte>>)
    ensures out == Encode(f, wire)
  {
    if |f.payload| > wire.limits.maxFrameBytes {
      return Err(PayloadTooLarge);
    }
    var total := HEADER_BYTES + |f.payload|;
    if total > wire.limits.maxFrameBytes || total > U32_MAX {
      return Err(PayloadTooLarge);
    }
    var buffer := new byte[HEADER_BYTES](i => 0);
    StoreWords(buffer, Layout(), HeaderValues(f, 0));
    assert HeaderValues(f, 0)[CHECKSUM_FIELD := 0] == HeaderValues(f, 0);
    assert buffer[..] == Pack(Layout(), HeaderValues(f, 0));
    var checksum := wire.crc(buffer[..], f.payload);
    StoreWords(buffer, Layout(), HeaderValues(f, checksum));
    assert buffer[..] == Pack(Layout(), HeaderValues(f, checksum));
    out := Ok(buffer[..] + f.payload);
  }

  method DecodeFrame(buffer: seq<byte>, wire: Wire) returns (decoded: Decoded)
    ensures decoded == Decode(buffer, wire)
  {
    if |buffer| < HEADER_BYTES {
      return NeedMoreData;
    }
    var v := LoadWords(buffer, Layout());
    if v[0] != MAGIC {
      return Failed(MalformedFrame);
    }
    if v[1] != VERSION {
      return Failed(UnsupportedVersion);
    }
    if v[2] != HEADER_BYTES {
      return Failed(MalformedFrame);
    }
    if !KnownKind(v[3]) {
      return Failed(InvalidEnumValue);
    }
    if v[5] > wire.limits.maxFrameBytes || v[5] + HEADER_BYTES > wire.limits.maxFrameBytes {
      return Failed(PayloadTooLarge);
    }
    if v[10] != 0 || v[12] != 0 {
      return Failed(MalformedFrame);
    }
    var total := HEADER_BYTES + v[5];
    if |buffer| < total {
      return NeedMoreData;
    }
    var header := new byte[HEADER_BYTES](i => 0);
    StoreWords(header, Layout(), v[CHECKSUM_FIELD := 0]);
    assert header[..] == Pack(Layout(), v[CHECKSUM_FIELD := 0]);
    var payload := buffer[HEADER_BYTES..total];
    if wire.crc(header[..], payload) != v[CHECKSUM_FIELD] {
      return Failed(ChecksumMismatch);
    }
    decoded := Complete(FrameOf(v, payload), total);
  }
}
