/**
 * The whole way: every well-formed packet has an encoding, the encoder writes one, and the decoder reads the packet
 * back.
 */
module CodecThrough {
  import opened RiftTypes
  import opened Wire
  import opened Schema
  import opened Codec
  import opened CodecRoundTrip
  import opened CodecEncoder
  import opened CodecMachine
  import opened Envelope

  // ---- Well-formed packets are what the encoder asks for ----

  lemma {:induction false} FirstSetFound(outs: seq<Out>, i: nat, fields: Record)
    requires i < |outs| && Emitted(outs[i], fields)
    ensures FirstSet(outs, fields).Some?
  {
    if !Emitted(outs[0], fields) {
      FirstSetFound(outs[1..], i - 1, fields);
    }
  }

  /** A record that needs a variant and is complete has one. */
  lemma VariantThere(s: Name, fields: Record)
    requires Complete(s, fields) && NeedsVariant(s)
    ensures FirstSet(Writes(s), fields).Some?
  {
    hide Writes, FirstSet;
    assert fields.Keys != {};
    var fid := Pick(fields.Keys);
    var i :| 0 <= i < |Writes(s)| && Writes(s)[i].fid == fid;
    FirstSetFound(Writes(s), i, fields);
  }

  /** A well-formed value has the shape the encoder asks for, and no union in it misses a variant. */
  lemma {:induction false} ConformsEncodable(kind: Kind, v: Value)
    requires Conforms(kind, v)
    ensures Shaped(kind, v) && Encodable(kind, v)
    decreases v
  {
    hide Reads, Writes, FirstSet, Emitted, IsWritten;
    match kind
    case KRec(s, _) =>
      if NeedsVariant(s) { VariantThere(s, v.fields); }
      forall fid | fid in v.fields
        ensures Shaped(Reads(s, fid).value, v.fields[fid]) && Encodable(Reads(s, fid).value, v.fields[fid])
      {
        ConformsEncodable(Reads(s, fid).value, v.fields[fid]);
      }
    case KSeqOf(_, elem) =>
      forall i | 0 <= i < |v.items|
        ensures Shaped(KRec(elem, false), v.items[i]) && Encodable(KRec(elem, false), v.items[i])
      {
        ConformsEncodable(KRec(elem, false), v.items[i]);
      }
    case KPairs(key, val) =>
      forall i | 0 <= i < |v.pairs|
        ensures Shaped(KRec(key, false), v.pairs[i].key) && Encodable(KRec(key, false), v.pairs[i].key)
        ensures Shaped(KRec(val, false), v.pairs[i].value) && Encodable(KRec(val, false), v.pairs[i].value)
      {
        ConformsEncodable(KRec(key, false), v.pairs[i].key);
        ConformsEncodable(KRec(val, false), v.pairs[i].value);
      }
    case KMapOf(_, val, _) =>
      forall k | k in v.entries
        ensures Shaped(KRec(val, false), v.entries[k]) && Encodable(KRec(val, false), v.entries[k])
      {
        ConformsEncodable(KRec(val, false), v.entries[k]);
      }
    case _ =>
  }

  // ---- An encoding for each ----

  lemma {:induction false} EncodingOf(kind: Kind, v: Value) returns (t: Term)
    requires Conforms(kind, v)
    ensures Encodes(kind, v, t)
    decreases v, 3, 0
  {
    hide Reads, Writes, EncodesItems, EncodesPairs, EncodesEntries, EncodesNums, EncodesFields, EncodesVariant, Lists;
    match kind
    case KBool => t := TBool(if v.b then 1 else 0);
    case KByte => t := TByte(v.n);
    case KI16 => t := TI16(v.n);
    case KI32 => t := TI32(v.n);
    case KI64 => t := TI64(v.n);
    case KText => t := TText(v.bytes);
    case KRec(s, _) =>
      var fs := FieldsOf(s, 0, v);
      t := TStruct(fs);
      assert Writes(s)[0..] == Writes(s);
    case KSeqOf(tag, elem) =>
      var items := ItemsOf(elem, v, 0);
      t := TList(tag, STRUCT, items);
      assert v.items[0..] == v.items;
    case KSetOf(w) =>
      var order := OrderOf(v.elems);
      var items := NumsOf(w, order);
      t := TList(SET, NumType(w), items);
    case KPairs(key, val) =>
      var es := PairsOf(key, val, v, 0);
      t := TMap(STRUCT, STRUCT, es);
      assert v.pairs[0..] == v.pairs;
    case KMapOf(w, val, _) =>
      var order := OrderOf(v.entries.Keys);
      var es := EntriesOf(w, val, order, v);
      t := TMap(NumType(w), STRUCT, es);
  }

  lemma {:induction false} OrderOf(s: set<int>) returns (order: seq<int>)
    ensures Lists(order, s)
    decreases |s|
  {
    if s == {} {
      order := [];
    } else {
      var n := Pick(s);
      var rest := OrderOf(s - {n});
      order := [n] + rest;
      assert Elements(order) == {n} + Elements(rest);
    }
  }

  lemma {:induction false} FieldsOf(s: Name, i: nat, v: Value) returns (fs: Fields)
    requires Conforms(KRec(s, false), v) && v.VRec? && i <= |Writes(s)|
    ensures if IsUnion(s) then EncodesVariant(Writes(s)[i..], v.fields, fs)
      else EncodesFields(Writes(s)[i..], v.fields, fs)
    decreases v, 2, |Writes(s)| - i
  {
    hide Writes, Reads, Encodes, Emitted, Complete;
    if i == |Writes(s)| {
      fs := NoField;
    } else {
      var o := Writes(s)[i];
      assert Writes(s)[i..][0] == o && Writes(s)[i..][1..] == Writes(s)[i + 1..];
      fs := FieldsOf(s, i + 1, v);
      if Emitted(o, v.fields) {
        EmittedPresent(o, v.fields);
        TablesAgree(s, i);
        FieldSmaller(v, o.fid);
        var t := EncodingOf(o.kind, v.fields[o.fid]);
        fs := Field(o.fid, t, if IsUnion(s) then NoField else fs);
      }
    }
  }

  lemma {:induction false} ItemsOf(elem: Name, v: Value, i: nat) returns (items: Items)
    requires v.VSeq? && i <= |v.items| && forall j :: 0 <= j < |v.items| ==> Conforms(KRec(elem, false), v.items[j])
    ensures EncodesItems(elem, v.items[i..], items)
    decreases v, 2, |v.items| - i
  {
    hide Encodes, Conforms;
    if i == |v.items| {
      items := NoItem;
    } else {
      assert v.items[i..][1..] == v.items[i + 1..];
      var t := EncodingOf(KRec(elem, false), v.items[i]);
      var more := ItemsOf(elem, v, i + 1);
      items := Item(t, more);
    }
  }

  lemma {:induction false} NumsOf(w: nat, order: seq<int>) returns (items: Items)
    ensures EncodesNums(w, order, items)
  {
    if order == [] {
      items := NoItem;
    } else {
      var more := NumsOf(w, order[1..]);
      items := Item(NumTerm(w, order[0]), more);
    }
  }

  lemma OnePairFirst(key: Name, val: Name, vs: seq<Pair>, k: Term, t: Term, more: Entries)
    requires vs != [] && Encodes(KRec(key, false), vs[0].key, k) && Encodes(KRec(val, false), vs[0].value, t)
    requires EncodesPairs(key, val, vs[1..], more)
    ensures EncodesPairs(key, val, vs, Entries.Entry(k, t, more))
  {
    hide Encodes;
  }

  lemma NoPairs(key: Name, val: Name)
    ensures EncodesPairs(key, val, [], NoEntry)
  {
  }

  lemma {:induction false} PairsOf(key: Name, val: Name, v: Value, i: nat) returns (es: Entries)
    requires v.VPairs? && i <= |v.pairs|
    requires forall j :: 0 <= j < |v.pairs| ==>
               Conforms(KRec(key, false), v.pairs[j].key) && Conforms(KRec(val, false), v.pairs[j].value)
    ensures EncodesPairs(key, val, v.pairs[i..], es)
    decreases v, 2, |v.pairs| - i
  {
    hide Encodes, Conforms, EncodesPairs;
    if i == |v.pairs| {
      NoPairs(key, val);
      es := NoEntry;
      assert v.pairs[i..] == [];
    } else {
      assert v.pairs[i..][1..] == v.pairs[i + 1..];
      PairSmaller(v, i);
      var k := EncodingOf(KRec(key, false), v.pairs[i].key);
      var t := EncodingOf(KRec(val, false), v.pairs[i].value);
      var more := PairsOf(key, val, v, i + 1);
      es := Entries.Entry(k, t, more);
      OnePairFirst(key, val, v.pairs[i..], k, t, more);
    }
  }

  lemma {:induction false} EntriesOf(w: nat, val: Name, order: seq<int>, v: Value) returns (es: Entries)
    requires v.VMap? && Elements(order) <= v.entries.Keys
    requires forall k :: k in v.entries ==> Conforms(KRec(val, false), v.entries[k])
    ensures EncodesEntries(w, val, order, v.entries, es)
    decreases v, 2, |order|
  {
    hide Encodes, Conforms;
    if order == [] {
      es := NoEntry;
    } else {
      assert order[0] in Elements(order) && forall n :: n in order[1..] ==> n in order;
      MapValueSmaller(v, order[0]);
      var t := EncodingOf(KRec(val, false), v.entries[order[0]]);
      var more := EntriesOf(w, val, order[1..], v);
      es := Entries.Entry(NumTerm(w, order[0]), t, more);
    }
  }

  /** Every well-formed packet has an encoding, and every encoding of it decodes to it. */
  lemma EveryPacketTravels(packet: Record)
    requires Conforms(KRec(ProtocolPacket, false), VRec(packet))
    ensures exists t :: Encodes(KRec(ProtocolPacket, false), VRec(packet), t)
    ensures forall t, rest :: Encodes(KRec(ProtocolPacket, false), VRec(packet), t) ==>
              DecodePacket(Bytes(t) + rest) == Ok(packet, rest)
  {
    hide Conforms, Encodes, Bytes, DecodePacket;
    var t := EncodingOf(KRec(ProtocolPacket, false), VRec(packet));
    forall t, rest | Encodes(KRec(ProtocolPacket, false), VRec(packet), t)
      ensures DecodePacket(Bytes(t) + rest) == Ok(packet, rest)
    {
      PacketRoundTrip(packet, t, rest);
    }
  }

  // ---- Encoder, then decoder ----

  /** Every well-formed packet is encoded without error, and the decoder gives it back and leaves nothing. */
  method EncodeThenDecode(packet: Record) returns (bytes: seq<Byte>, back: Option<Record>, left: seq<Byte>)
    requires Conforms(KRec(ProtocolPacket, false), VRec(packet))
    ensures exists t :: Encodes(KRec(ProtocolPacket, false), VRec(packet), t) && bytes == Bytes(t)
    ensures back == Some(packet) && left == []
  {
    hide Conforms, Encodes, Shaped, Encodable, DecodePacket, Bytes;
    ConformsEncodable(KRec(ProtocolPacket, false), VRec(packet));
    var encoder := new Encoder();
    ghost var t;
    var ok;
    ok, t := encoder.EncodeProtocolPacket(packet);
    bytes := encoder.stream;
    assert [] + Bytes(t) == Bytes(t) && Bytes(t) + [] == Bytes(t);
    PacketRoundTrip(packet, t, []);
    var decoder := new Decoder(bytes);
    back := decoder.DecodeProtocolPacket();
    left := decoder.stream;
  }

  /** The same through an envelope without origin header. */
  method SendThenReceive(packet: Record, envelope: SecurityEnvelope)
    returns (got: Option<SecurityEnvelope>, back: Option<Record>)
    requires Conforms(KRec(ProtocolPacket, false), VRec(packet))
    requires Typed(envelope) && envelope.origin.None?
    ensures got.Some? && got.value == envelope.(payload := got.value.payload)
    ensures back == Some(packet)
  {
    hide Conforms, Encodes, Shaped, Encodable, DecodePacket, Bytes, DecodeEnvelope, EnvelopeBytes;
    ConformsEncodable(KRec(ProtocolPacket, false), VRec(packet));
    var encoder := new Encoder();
    ghost var t;
    var ok;
    ok, t := encoder.EncodeProtocolPacket(packet);
    var sent := envelope.(payload := encoder.stream);
    assert [] + Bytes(t) == Bytes(t);
    EnvelopeRoundTrip(sent);
    PacketThroughEnvelope(sent, packet, t);
    var out := new Stream([]);
    out.WriteEnvelope(sent);
    assert [] + EnvelopeBytes(sent) == EnvelopeBytes(sent);
    var in_ := new Stream(out.bytes);
    got := in_.ReadEnvelope();
    var decoder := new Decoder(got.value.payload);
    back := decoder.DecodeProtocolPacket();
  }
}
