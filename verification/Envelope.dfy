/** The security envelope around a serialized packet, as the program lays it out. */
module Envelope {
  import opened RiftTypes
  import opened Wire
  import opened Schema
  import opened Codec
  import opened CodecRoundTrip

  const MAGIC := 0xA1F7
  const PROTOCOL_MAJOR := 8

  datatype Origin = Origin(keyID: int, fingerprintLength: nat, fingerprint: seq<Byte>)

  datatype SecurityEnvelope = SecurityEnvelope(
    packetNumber: int, outerKeyID: int, nonceLocal: int, nonceRemote: int, lifetime: int,
    origin: Option<Origin>, payload: seq<Byte>)

  /** A value of the Go struct: every number within its type. */
  predicate Typed(e: SecurityEnvelope) {
    && Signed(e.packetNumber, 2) && Signed(e.outerKeyID, 1) && Signed(e.nonceLocal, 2) && Signed(e.nonceRemote, 2)
    && Signed(e.lifetime, 4)
    && (e.origin.Some? ==> Signed(e.origin.value.keyID, 4) && e.origin.value.fingerprintLength < 0x1_0000)
  }

  function OriginBytes(o: Origin): seq<Byte> {
    NumBytes(o.keyID, 4) + (BigEndian(o.fingerprintLength, 2) + if o.fingerprintLength > 0 then o.fingerprint else [])
  }

  /** What EncodeEnvelope writes: no authentication, so no fingerprint. */
  function EnvelopeBytes(e: SecurityEnvelope): seq<Byte> {
    BigEndian(MAGIC, 2) +
      (NumBytes(e.packetNumber, 2) + ([PROTOCOL_MAJOR] + (NumBytes(e.outerKeyID, 1) + (BigEndian(0, 2) +
    (NumBytes(e.nonceLocal, 2) + (NumBytes(e.nonceRemote, 2) + (NumBytes(e.lifetime, 4) + Trailer(e))))))))
  }

  function Trailer(e: SecurityEnvelope): seq<Byte> {
    (if e.origin.Some? then OriginBytes(e.origin.value) else []) + e.payload
  }

  /** The layout, byte by byte: the magic number, the version, no fingerprint, and each field at its place. */
  lemma EnvelopeLayout(e: SecurityEnvelope)
    requires Typed(e)
    ensures var b := EnvelopeBytes(e);
            && |b| == 16 + |Trailer(e)| && b[0] == 0xA1 && b[1] == 0xF7 && b[2..4] == NumBytes(e.packetNumber, 2)
            && b[4] == 8 && b[5..6] == NumBytes(e.outerKeyID, 1) && b[6] == 0 && b[7] == 0
            && b[8..10] == NumBytes(e.nonceLocal, 2) && b[10..12] == NumBytes(e.nonceRemote, 2)
            && b[12..16] == NumBytes(e.lifetime, 4)
            && (e.origin.None? ==> b[16..] == e.payload)
  {
    hide NumBytes, BigEndian, Trailer, Pow256;
    SmallPowers();
    BigEndianDigit(MAGIC, 2, 0);
    BigEndianDigit(MAGIC, 2, 1);
    BigEndianDigit(0, 2, 0);
    BigEndianDigit(0, 2, 1);
    TrailerPlain(e);
  }

  lemma TrailerPlain(e: SecurityEnvelope)
    ensures e.origin.None? ==> Trailer(e) == e.payload
  {
  }

  /**
   * The origin header: key, length of the fingerprint, and the fingerprint unless its length is 0; then the payload.
   */
  lemma OriginLayout(e: SecurityEnvelope)
    requires Typed(e) && e.origin.Some?
    ensures var o, b := e.origin.value, Trailer(e);
            && |b| >= 6 && b[..4] == NumBytes(o.keyID, 4)
            && b[4] == o.fingerprintLength / 0x100 && b[5] == o.fingerprintLength % 0x100
            && b[6..] == (if o.fingerprintLength > 0 then o.fingerprint else []) + e.payload
  {
    hide NumBytes, BigEndian, Pow256;
    SmallPowers();
    BigEndianDigit(e.origin.value.fingerprintLength, 2, 0);
    BigEndianDigit(e.origin.value.fingerprintLength, 2, 1);
  }

  function ReadUnsigned(b: seq<Byte>, k: nat): (r: Result<nat>)
    ensures r.Ok? ==> |r.rest| == |b| - k
  {
    if |b| < k then Err else Ok(FromBigEndian(b[..k]), b[k..])
  }

  lemma UnsignedRoundTrip(n: nat, k: nat, rest: seq<Byte>)
    requires n < Pow256(k)
    ensures ReadUnsigned(BigEndian(n, k) + rest, k) == Ok(n, rest)
  {
    hide BigEndian, FromBigEndian;
    BigEndianRoundTrip(n, k);
    assert (BigEndian(n, k) + rest)[..k] == BigEndian(n, k) && (BigEndian(n, k) + rest)[k..] == rest;
  }

  /** The fields after the fingerprint. */
  function DecodeBody(packetNumber: int, outerKeyID: int, b: seq<Byte>): Result<SecurityEnvelope> {
    var nl := ReadNum(b, 2);
    if nl.Err? then Err else
    var nr := ReadNum(nl.rest, 2);
    if nr.Err? then Err else
    var life := ReadNum(nr.rest, 4);
    if life.Err? then Err else
    Ok(SecurityEnvelope(packetNumber, outerKeyID, nl.value, nr.value, life.value, None, life.rest), [])
  }

  /**
   * The version is read and ignored, a fingerprint of the announced length is skipped; all that is left is the payload.
   */
  function DecodeEnvelope(b: seq<Byte>): Result<SecurityEnvelope> {
    var magic := ReadUnsigned(b, 2);
    if magic.Err? || magic.value != MAGIC then Err else
    var num := ReadNum(magic.rest, 2);
    if num.Err? then Err else
    var ver := ReadByte(num.rest);
    if ver.Err? then Err else
    var key := ReadNum(ver.rest, 1);
    if key.Err? then Err else
    var fp := ReadUnsigned(key.rest, 2);
    if fp.Err? || |fp.rest| < fp.value then Err else
    DecodeBody(num.value, key.value, fp.rest[fp.value..])
  }

  /**
   * On any bytes: decoding succeeds exactly if they start with the magic number and are long enough for the fields and
   * the fingerprint announced; then each number is the one at its place, and all after the fields is the payload.
   */
  lemma DecodesExactly(b: seq<Byte>)
    ensures DecodeEnvelope(b).Ok? <==>
              |b| >= 16 && b[0] == 0xA1 && b[1] == 0xF7 && |b| >= 16 + (b[6] as int * 0x100 + b[7] as int)
    ensures DecodeEnvelope(b).Ok? ==>
              var e, n := DecodeEnvelope(b).value, 8 + (b[6] as int * 0x100 + b[7] as int);
              && e.packetNumber == ReadNum(b[2..], 2).value && e.outerKeyID == ReadNum(b[5..], 1).value
              && e.nonceLocal == ReadNum(b[n..], 2).value && e.nonceRemote == ReadNum(b[n + 2..], 2).value
              && e.lifetime == ReadNum(b[n + 4..], 4).value && e.origin == None && e.payload == b[n + 8..]
  {
    hide FromBigEndian, ToSigned, ReadNum, DecodeBody;
    if |b| >= 8 {
      TwoDigits(b[..2]);
      TwoDigits(b[6..8]);
      Enough(b[2..], 2);
      Enough(b[5..], 1);
      assert b[2..][2..] == b[4..] && b[4..][1..] == b[5..] && b[5..][1..] == b[6..] && b[6..][..2] == b[6..8];
      assert b[6..][2..] == b[8..];
      var len := b[6] as int * 0x100 + b[7] as int;
      if 8 + len <= |b| {
        assert b[8..][len..] == b[8 + len..];
        BodyExactly(ReadNum(b[2..], 2).value, ReadNum(b[5..], 1).value, b[8 + len..]);
        if 16 + len <= |b| {
          assert b[8 + len..][2..] == b[10 + len..] && b[8 + len..][4..] == b[12 + len..];
          assert b[8 + len..][8..] == b[16 + len..];
        }
      }
    }
  }

  lemma BodyExactly(packetNumber: int, outerKeyID: int, b: seq<Byte>)
    ensures DecodeBody(packetNumber, outerKeyID, b) ==
              if |b| < 8 then Err
              else Ok(SecurityEnvelope(packetNumber, outerKeyID, ReadNum(b, 2).value, ReadNum(b[2..], 2).value,
                                       ReadNum(b[4..], 4).value, None, b[8..]), [])
  {
    hide FromBigEndian, ToSigned;
    if |b| >= 8 {
      assert b[2..][2..] == b[4..] && b[4..][4..] == b[8..];
    }
  }

  /** Decoding gives everything back, with an origin header, which is not parsed, at the front of the payload. */
  lemma EnvelopeDecodes(e: SecurityEnvelope)
    requires Typed(e)
    ensures DecodeEnvelope(EnvelopeBytes(e)) == Ok(e.(origin := None, payload := Trailer(e)), [])
  {
    hide NumBytes, BigEndian, ReadNum, ReadUnsigned, ReadByte, Signed, Trailer, DecodeBody;
    Widths();
    BodyDecodes(e);
    var body := NumBytes(e.nonceLocal, 2) + (NumBytes(e.nonceRemote, 2) + (NumBytes(e.lifetime, 4) + Trailer(e)));
    var afterKey := BigEndian(0, 2) + body;
    var afterVersion := NumBytes(e.outerKeyID, 1) + afterKey;
    var afterNumber := [PROTOCOL_MAJOR] + afterVersion;
    UnsignedRoundTrip(MAGIC, 2, NumBytes(e.packetNumber, 2) + afterNumber);
    NumRoundTrip(e.packetNumber, 2, afterNumber);
    FirstByte(PROTOCOL_MAJOR, afterVersion);
    NumRoundTrip(e.outerKeyID, 1, afterKey);
    UnsignedRoundTrip(0, 2, body);
    assert body[0..] == body;
  }

  lemma BodyDecodes(e: SecurityEnvelope)
    requires Typed(e)
    ensures DecodeBody(e.packetNumber, e.outerKeyID,
                       NumBytes(e.nonceLocal, 2) +
                         (NumBytes(e.nonceRemote, 2) + (NumBytes(e.lifetime, 4) + Trailer(e)))) ==
            Ok(e.(origin := None, payload := Trailer(e)), [])
  {
    hide NumBytes, BigEndian, ReadNum, Signed, Trailer;
    var afterRemote := NumBytes(e.lifetime, 4) + Trailer(e);
    NumRoundTrip(e.nonceLocal, 2, NumBytes(e.nonceRemote, 2) + afterRemote);
    NumRoundTrip(e.nonceRemote, 2, afterRemote);
    NumRoundTrip(e.lifetime, 4, Trailer(e));
  }

  /** The round trip holds exactly for envelopes without an origin header. */
  lemma EnvelopeRoundTrip(e: SecurityEnvelope)
    requires Typed(e)
    ensures DecodeEnvelope(EnvelopeBytes(e)) == Ok(e, []) <==> e.origin.None?
  {
    hide EnvelopeBytes, DecodeEnvelope, Typed, OriginBytes;
    EnvelopeDecodes(e);
    if e.origin.None? { assert Trailer(e) == e.payload; }
  }

  /** A packet through the envelope: without an origin header it comes back whole. */
  lemma PacketThroughEnvelope(e: SecurityEnvelope, packet: Record, t: Term)
    requires Typed(e) && e.origin.None? && e.payload == Bytes(t)
    requires Conforms(KRec(ProtocolPacket, false), VRec(packet))
    requires Encodes(KRec(ProtocolPacket, false), VRec(packet), t)
    ensures DecodeEnvelope(EnvelopeBytes(e)).Ok?
    ensures DecodePacket(DecodeEnvelope(EnvelopeBytes(e)).value.payload) == Ok(packet, [])
  {
    hide EnvelopeBytes, DecodeEnvelope, Typed, Conforms, Encodes, Bytes, DecodePacket;
    EnvelopeRoundTrip(e);
    PacketRoundTrip(packet, t, []);
    assert Bytes(t) + [] == Bytes(t);
  }

  lemma Four(s: seq<Byte>, a: seq<Byte>, b: seq<Byte>, c: seq<Byte>, d: seq<Byte>)
    ensures s + a + b + c + d == s + (a + (b + (c + d)))
  {
    assert s + a + b + c + d == s + a + (b + (c + d));
  }

  lemma Regroup(s: seq<Byte>, a: seq<Byte>, b: seq<Byte>, c: seq<Byte>, d: seq<Byte>, rest: seq<Byte>)
    ensures s + (a + (b + (c + d))) + rest == s + (a + (b + (c + (d + rest))))
  {
    assert c + d + rest == c + (d + rest);
    assert b + (c + d) + rest == b + (c + d + rest);
    assert a + (b + (c + d)) + rest == a + (b + (c + d) + rest);
    assert s + (a + (b + (c + d))) + rest == s + (a + (b + (c + d)) + rest);
  }

  /** The layout, written in two halves and a trailer. */
  lemma EnvelopeInParts(s: seq<Byte>, e: SecurityEnvelope)
    ensures s + (BigEndian(MAGIC, 2) + (NumBytes(e.packetNumber, 2) + ([PROTOCOL_MAJOR] + NumBytes(e.outerKeyID, 1)))) +
            (BigEndian(0, 2) + (NumBytes(e.nonceLocal, 2) + (NumBytes(e.nonceRemote, 2) + NumBytes(e.lifetime, 4)))) +
              Trailer(e) ==
            s + EnvelopeBytes(e)
  {
    hide NumBytes, BigEndian, Trailer, Pow256;
    var head := s + (BigEndian(MAGIC, 2) +
      (NumBytes(e.packetNumber, 2) + ([PROTOCOL_MAJOR] + NumBytes(e.outerKeyID, 1))));
    var rest := BigEndian(0, 2) +
      (NumBytes(e.nonceLocal, 2) + (NumBytes(e.nonceRemote, 2) + (NumBytes(e.lifetime, 4) + Trailer(e))));
    Regroup(head, BigEndian(0, 2), NumBytes(e.nonceLocal, 2), NumBytes(e.nonceRemote, 2), NumBytes(e.lifetime, 4),
            Trailer(e));
    Regroup(s, BigEndian(MAGIC, 2), NumBytes(e.packetNumber, 2), [PROTOCOL_MAJOR], NumBytes(e.outerKeyID, 1), rest);
  }

  // ---- The program's form: sequential writes and reads ----

  class Stream {
    var bytes: seq<Byte>

    constructor (bytes: seq<Byte>)
      ensures this.bytes == bytes
    {
      this.bytes := bytes;
    }

    method Write(b: seq<Byte>)
      modifies this
      ensures bytes == old(bytes) + b
    {
      bytes := bytes + b;
    }

    method WriteEnvelope(e: SecurityEnvelope)
      modifies this
      ensures bytes == old(bytes) + EnvelopeBytes(e)
    {
      hide NumBytes, BigEndian, Trailer, Pow256;
      ghost var start := bytes;
      Write(BigEndian(MAGIC, 2));
      Write(NumBytes(e.packetNumber, 2));
      Write([PROTOCOL_MAJOR]);
      Write(NumBytes(e.outerKeyID, 1));
      Four(start, BigEndian(MAGIC, 2), NumBytes(e.packetNumber, 2), [PROTOCOL_MAJOR], NumBytes(e.outerKeyID, 1));
      ghost var head := bytes;
      Write(BigEndian(0, 2));
      Write(NumBytes(e.nonceLocal, 2));
      Write(NumBytes(e.nonceRemote, 2));
      Write(NumBytes(e.lifetime, 4));
      Four(head, BigEndian(0, 2), NumBytes(e.nonceLocal, 2), NumBytes(e.nonceRemote, 2), NumBytes(e.lifetime, 4));
      WriteTrailer(e);
      EnvelopeInParts(start, e);
    }

    /** The origin header, if there is one, and the payload. */
    method WriteTrailer(e: SecurityEnvelope)
      modifies this
      ensures bytes == old(bytes) + Trailer(e)
    {
      hide NumBytes, BigEndian, Pow256;
      if e.origin.Some? {
        Write(NumBytes(e.origin.value.keyID, 4));
        Write(BigEndian(e.origin.value.fingerprintLength, 2));
        if e.origin.value.fingerprintLength > 0 { Write(e.origin.value.fingerprint); }
        assert bytes == old(bytes) + OriginBytes(e.origin.value);
      }
      Write(e.payload);
    }

    method Take(k: nat) returns (b: Option<seq<Byte>>)
      modifies this
      ensures if k <= |old(bytes)| then b == Some(old(bytes)[..k]) && bytes == old(bytes)[k..] else b.None?
    {
      if |bytes| < k { return None; }
      b := Some(bytes[..k]);
      bytes := bytes[k..];
    }

    method ReadEnvelope() returns (e: Option<SecurityEnvelope>)
      modifies this
      ensures var r := DecodeEnvelope(old(bytes)); e == if r.Ok? then Some(r.value) else None
    {
      hide FromBigEndian, ToSigned, Pow256;
      var magic := Take(2);
      if magic.None? || FromBigEndian(magic.value) != MAGIC { return None; }
      var num := Take(2);
      if num.None? { return None; }
      var ver := Take(1);
      if ver.None? { return None; }
      var key := Take(1);
      if key.None? { return None; }
      var len := Take(2);
      if len.None? { return None; }
      var fp := Take(FromBigEndian(len.value));
      if fp.None? { return None; }
      ghost var body := bytes;
      var local := Take(2);
      if local.None? { return None; }
      var remote := Take(2);
      if remote.None? { return None; }
      var life := Take(4);
      if life.None? { return None; }
      e := Some(SecurityEnvelope(ToSigned(FromBigEndian(num.value), 2), ToSigned(FromBigEndian(key.value), 1),
                                 ToSigned(FromBigEndian(local.value), 2),
                                 ToSigned(FromBigEndian(remote.value), 2), ToSigned(FromBigEndian(life.value), 4), None,
                                   bytes));
    }
  }
}
