/**
 * The packet schema of section 7 of RFC 9692: what the decoder reads under each field identifier, and what the encoder
 * writes.
 */
module Schema {
  import opened RiftTypes
  import opened Wire

  datatype Name =
    | ProtocolPacket | PacketHeader | PacketContent | LIEMessage | Neighbor | NodeCapabilities
    | LinkCapabilities | Timestamp
    | TieID | TieHeader | HeaderWithLifeTime | TIDEMessage | TIREMessage | TIEMessage | TIEElement | NodeTIEElement
    | NodeNeighbors
    | NodeFlags | LinkIDPair | PrefixType | IPv4PrefixType | IPv6PrefixType | PrefixAttributes | PrefixSequence
    | PrefixTIEElement | KeyValueTIEElement | KeyValueContent

  // inline: decoded into the record already there; otherwise into a fresh one.
  // Sets and lists of structs become slices, sets of numbers become sets,
  // maps keyed by numbers become maps (merge: into the map already there), maps keyed by prefixes become slices of
  // pairs.
  datatype Kind =
    | KBool | KByte | KI16 | KI32 | KI64 | KText
    | KRec(name: Name, inline: bool)
    | KSeqOf(tag: Byte, elem: Name)
    | KSetOf(width: nat)
    | KPairs(key: Name, val: Name)
    | KMapOf(keyWidth: nat, value: Name, merge: bool)

  /** The decoder's switch on the field identifier; None is skipped. */
  function Reads(s: Name, fid: int): Option<Kind> {
    match s
    case ProtocolPacket =>
      if fid == 1 then Some(KRec(PacketHeader, true)) else if fid == 2 then Some(KRec(PacketContent, true)) else None
    case PacketHeader =>
      if fid == 1 || fid == 4 then Some(KByte) else if fid == 2 then Some(KI16) else if fid == 3 then Some(KI64)
        else None
    case PacketContent =>
      if fid == 1 then Some(KRec(LIEMessage, false)) else if fid == 2 then Some(KRec(TIDEMessage, false))
      else if fid == 3 then Some(KRec(TIREMessage, false)) else if fid == 4 then Some(KRec(TIEMessage, false)) else None
    case LIEMessage =>
      if fid == 1 || fid == 24 then Some(KText)
      else if fid == 2 || fid == 4 || fid == 5 || fid == 7 || fid == 13 || fid == 35 then Some(KI32)
      else if fid == 3 || fid == 12 then Some(KI16)
      else if fid == 6 then Some(KRec(Neighbor, false))
      else if fid == 10 then Some(KRec(NodeCapabilities, true))
      else if fid == 11 then Some(KRec(LinkCapabilities, false))
      else if fid == 21 || fid == 22 || fid == 23 then Some(KBool) else None
    case Neighbor => if fid == 1 then Some(KI64) else if fid == 2 then Some(KI32) else None
    case NodeCapabilities =>
      if fid == 1 then Some(KI16) else if fid == 2 then Some(KBool) else if fid == 3 then Some(KI32) else None
    case LinkCapabilities => if fid == 1 || fid == 2 then Some(KBool) else None
    case Timestamp => if fid == 1 then Some(KI64) else if fid == 2 then Some(KI32) else None
    case TieID => if fid == 1 || fid == 3 || fid == 4 then Some(KI32) else if fid == 2 then Some(KI64) else None
    case TieHeader =>
      if fid == 2 then Some(KRec(TieID, true)) else if fid == 3 then Some(KI64)
      else if fid == 10 then Some(KRec(Timestamp, false)) else if fid == 12 then Some(KI32) else None
    case HeaderWithLifeTime => if fid == 1 then Some(KRec(TieHeader, true)) else if fid == 2 then Some(KI32) else None
    case TIDEMessage =>
      if fid == 1 || fid == 2 then Some(KRec(TieID, true)) else if fid == 3 then Some(KSeqOf(LIST, HeaderWithLifeTime))
        else None
    case TIREMessage => if fid == 1 then Some(KSeqOf(SET, HeaderWithLifeTime)) else None
    case TIEMessage =>
      if fid == 1 then Some(KRec(TieHeader, true)) else if fid == 2 then Some(KRec(TIEElement, true)) else None
    case TIEElement =>
      if fid == 1 then Some(KRec(NodeTIEElement, false))
      else if fid == 2 || fid == 3 || fid == 5 || fid == 6 || fid == 7 then Some(KRec(PrefixTIEElement, false))
      else if fid == 9 then Some(KRec(KeyValueTIEElement, false)) else None
    case NodeTIEElement =>
      if fid == 1 then Some(KByte) else if fid == 2 then Some(KMapOf(8, NodeNeighbors, true))
      else if fid == 3 then Some(KRec(NodeCapabilities, true)) else if fid == 4 then Some(KRec(NodeFlags, false))
      else if fid == 5 then Some(KText) else if fid == 6 || fid == 20 then Some(KI32) else if fid == 7 then Some(KI64)
      else if fid == 10 then Some(KSetOf(4)) else if fid == 12 then Some(KSetOf(8)) else None
    case NodeNeighbors =>
      if fid == 1 then Some(KByte) else if fid == 3 || fid == 5 then Some(KI32)
        else if fid == 4 then Some(KSeqOf(SET, LinkIDPair)) else None
    case NodeFlags => if fid == 1 then Some(KBool) else None
    case LinkIDPair =>
      if fid == 1 || fid == 2 || fid == 10 then Some(KI32) else if fid == 11 then Some(KText)
        else if fid == 12 then Some(KByte)
      else if fid == 13 then Some(KBool) else if fid == 14 then Some(KSetOf(4)) else None
    case PrefixType =>
      if fid == 1 then Some(KRec(IPv4PrefixType, false)) else if fid == 2 then Some(KRec(IPv6PrefixType, false))
        else None
    case IPv4PrefixType => if fid == 1 then Some(KI32) else if fid == 2 then Some(KByte) else None
    case IPv6PrefixType => if fid == 1 then Some(KText) else if fid == 2 then Some(KByte) else None
    case PrefixAttributes =>
      if fid == 2 || fid == 10 || fid == 12 then Some(KI32) else if fid == 3 then Some(KSetOf(8))
      else if fid == 4 then Some(KRec(PrefixSequence, false)) else if fid == 6 || fid == 7 then Some(KBool) else None
    case PrefixSequence => if fid == 1 then Some(KRec(Timestamp, true)) else if fid == 2 then Some(KByte) else None
    case PrefixTIEElement => if fid == 1 then Some(KPairs(PrefixType, PrefixAttributes)) else None
    case KeyValueTIEElement => if fid == 1 then Some(KMapOf(4, KeyValueContent, false)) else None
    case KeyValueContent => if fid == 1 then Some(KI64) else if fid == 2 then Some(KText) else None
  }

  // When the encoder writes a field.
  datatype When = Always | IfSet | IfNonEmpty
  datatype Out = Out(fid: int, kind: Kind, when: When)

  /** The fields the encoder writes, in its order; of a union, the first that is set. */
  function Writes(s: Name): seq<Out> {
    match s
    case ProtocolPacket => [Out(1, KRec(PacketHeader, true), Always), Out(2, KRec(PacketContent, true), Always)]
    case PacketHeader => [Out(1, KByte, Always), Out(2, KI16, Always), Out(3, KI64, Always), Out(4, KByte, IfSet)]
    case PacketContent =>
      [Out(1, KRec(LIEMessage, false), IfSet), Out(2, KRec(TIDEMessage, false), IfSet),
       Out(3, KRec(TIREMessage, false), IfSet), Out(4, KRec(TIEMessage, false), IfSet)]
    case LIEMessage =>
      [Out(1, KText, IfNonEmpty), Out(2, KI32, Always), Out(3, KI16, Always), Out(4, KI32, IfSet), Out(5, KI32, IfSet),
       Out(6, KRec(Neighbor, false), IfSet), Out(7, KI32, IfSet), Out(10, KRec(NodeCapabilities, true), Always),
       Out(11, KRec(LinkCapabilities, false), IfSet), Out(12, KI16, Always), Out(13, KI32, IfSet),
       Out(21, KBool, IfSet),
       Out(22, KBool, IfSet), Out(23, KBool, IfSet), Out(24, KText, IfNonEmpty), Out(35, KI32, IfSet)]
    case Neighbor => [Out(1, KI64, Always), Out(2, KI32, Always)]
    case NodeCapabilities => [Out(1, KI16, Always), Out(2, KBool, IfSet), Out(3, KI32, IfSet)]
    case LinkCapabilities => [Out(1, KBool, IfSet), Out(2, KBool, IfSet)]
    case Timestamp => [Out(1, KI64, Always), Out(2, KI32, IfSet)]
    case TieID => [Out(1, KI32, Always), Out(2, KI64, Always), Out(3, KI32, Always), Out(4, KI32, Always)]
    case TieHeader =>
      [Out(2, KRec(TieID, true), Always), Out(3, KI64, Always), Out(10, KRec(Timestamp, false), IfSet),
       Out(12, KI32, IfSet)]
    case HeaderWithLifeTime => [Out(1, KRec(TieHeader, true), Always), Out(2, KI32, Always)]
    case TIDEMessage =>
      [Out(1, KRec(TieID, true), Always), Out(2, KRec(TieID, true), Always),
       Out(3, KSeqOf(LIST, HeaderWithLifeTime), Always)]
    case TIREMessage => [Out(1, KSeqOf(SET, HeaderWithLifeTime), Always)]
    case TIEMessage => [Out(1, KRec(TieHeader, true), Always), Out(2, KRec(TIEElement, true), Always)]
    case TIEElement =>
      [Out(1, KRec(NodeTIEElement, false), IfSet), Out(2, KRec(PrefixTIEElement, false), IfSet),
       Out(3, KRec(PrefixTIEElement, false), IfSet),
       Out(5, KRec(PrefixTIEElement, false), IfSet), Out(6, KRec(PrefixTIEElement, false), IfSet),
       Out(7, KRec(PrefixTIEElement, false), IfSet),
       Out(9, KRec(KeyValueTIEElement, false), IfSet)]
    case NodeTIEElement =>
      [Out(1, KByte, Always), Out(2, KMapOf(8, NodeNeighbors, true), Always),
       Out(3, KRec(NodeCapabilities, true), Always),
       Out(4, KRec(NodeFlags, false), IfSet), Out(5, KText, IfNonEmpty), Out(6, KI32, IfSet), Out(7, KI64, IfSet),
       Out(10, KSetOf(4), IfNonEmpty), Out(12, KSetOf(8), IfNonEmpty), Out(20, KI32, IfSet)]
    case NodeNeighbors =>
      [Out(1, KByte, Always), Out(3, KI32, IfSet), Out(4, KSeqOf(SET, LinkIDPair), IfNonEmpty), Out(5, KI32, IfSet)]
    case NodeFlags => [Out(1, KBool, IfSet)]
    case LinkIDPair =>
      [Out(1, KI32, Always), Out(2, KI32, Always), Out(10, KI32, IfSet), Out(11, KText, IfNonEmpty),
       Out(12, KByte, IfSet),
       Out(13, KBool, IfSet), Out(14, KSetOf(4), IfNonEmpty)]
    case PrefixType => [Out(1, KRec(IPv4PrefixType, false), IfSet), Out(2, KRec(IPv6PrefixType, false), IfSet)]
    case IPv4PrefixType => [Out(1, KI32, Always), Out(2, KByte, Always)]
    case IPv6PrefixType => [Out(1, KText, Always), Out(2, KByte, Always)]
    case PrefixAttributes =>
      [Out(2, KI32, Always), Out(3, KSetOf(8), IfNonEmpty), Out(4, KRec(PrefixSequence, false), IfSet),
       Out(6, KBool, IfSet),
       Out(7, KBool, IfSet), Out(10, KI32, IfSet), Out(12, KI32, IfSet)]
    case PrefixSequence => [Out(1, KRec(Timestamp, true), Always), Out(2, KByte, IfSet)]
    case PrefixTIEElement => [Out(1, KPairs(PrefixType, PrefixAttributes), Always)]
    case KeyValueTIEElement => [Out(1, KMapOf(4, KeyValueContent, false), Always)]
    case KeyValueContent => [Out(1, KI64, IfSet), Out(2, KText, IfSet)]
  }

  predicate IsUnion(s: Name) { s == PacketContent || s == TIEElement || s == PrefixType }

  // A union without a variant is an error, except for a prefix, which is then written empty.
  predicate NeedsVariant(s: Name) { s == PacketContent || s == TIEElement }

  /**
   * Encoder and decoder agree: what is written under an identifier is read as the same kind, and nothing is written
   * twice.
   */
  lemma TablesAgree(s: Name, i: nat)
    requires i < |Writes(s)|
    ensures ReadAsWritten(s, Writes(s)[i]) && (i > 0 ==> Writes(s)[i - 1].fid < Writes(s)[i].fid)
  {
    match s
    case LIEMessage => LIEAgrees(i);
    case NodeTIEElement => NodeAgrees(i);
    case LinkIDPair | PrefixAttributes | TIEElement => AttributesAgree(s, i);
    case _ => OthersAgree(s, i);
  }

  predicate ReadAsWritten(s: Name, o: Out) {
    && Reads(s, o.fid) == Some(o.kind) && 0 < o.fid < 0x8000
    && (o.kind.KSeqOf? ==> o.kind.tag == SET || o.kind.tag == LIST)
  }

  lemma LIEAgrees(i: nat)
    requires i < |Writes(LIEMessage)|
    ensures ReadAsWritten(LIEMessage, Writes(LIEMessage)[i])
    ensures i > 0 ==> Writes(LIEMessage)[i - 1].fid < Writes(LIEMessage)[i].fid
  {
  }

  lemma NodeAgrees(i: nat)
    requires i < |Writes(NodeTIEElement)|
    ensures ReadAsWritten(NodeTIEElement, Writes(NodeTIEElement)[i])
    ensures i > 0 ==> Writes(NodeTIEElement)[i - 1].fid < Writes(NodeTIEElement)[i].fid
  {
  }

  lemma AttributesAgree(s: Name, i: nat)
    requires i < |Writes(s)| && (s == LinkIDPair || s == PrefixAttributes || s == TIEElement)
    ensures ReadAsWritten(s, Writes(s)[i]) && (i > 0 ==> Writes(s)[i - 1].fid < Writes(s)[i].fid)
  {
  }

  lemma OthersAgree(s: Name, i: nat)
    requires i < |Writes(s)| && s != LIEMessage && s != NodeTIEElement && s != LinkIDPair && s != PrefixAttributes
    requires s != TIEElement
    ensures ReadAsWritten(s, Writes(s)[i]) && (i > 0 ==> Writes(s)[i - 1].fid < Writes(s)[i].fid)
  {
  }

  /** And the other way round: every identifier the decoder knows is one the encoder can write. */
  lemma KnownIsWritten(s: Name, fid: int)
    requires Reads(s, fid).Some?
    ensures exists i :: 0 <= i < |Writes(s)| && Writes(s)[i].fid == fid
  {
    match s
    case LIEMessage => LIEKnown(fid);
    case NodeTIEElement => NodeKnown(fid);
    case _ => OthersKnown(s, fid);
  }

  lemma LIEKnown(fid: int)
    requires Reads(LIEMessage, fid).Some?
    ensures exists i :: 0 <= i < |Writes(LIEMessage)| && Writes(LIEMessage)[i].fid == fid
  {
    assert var w := Writes(LIEMessage);
           && w[0].fid == 1 && w[1].fid == 2 && w[2].fid == 3 && w[3].fid == 4 && w[4].fid == 5 && w[5].fid == 6
           && w[6].fid == 7 && w[7].fid == 10 && w[8].fid == 11 && w[9].fid == 12 && w[10].fid == 13
           && w[11].fid == 21 && w[12].fid == 22 && w[13].fid == 23 && w[14].fid == 24 && w[15].fid == 35;
  }

  lemma NodeKnown(fid: int)
    requires Reads(NodeTIEElement, fid).Some?
    ensures exists i :: 0 <= i < |Writes(NodeTIEElement)| && Writes(NodeTIEElement)[i].fid == fid
  {
    assert var w := Writes(NodeTIEElement);
           && w[0].fid == 1 && w[1].fid == 2 && w[2].fid == 3 && w[3].fid == 4 && w[4].fid == 5 && w[5].fid == 6
           && w[6].fid == 7 && w[7].fid == 10 && w[8].fid == 12 && w[9].fid == 20;
  }

  lemma OthersKnown(s: Name, fid: int)
    requires s != LIEMessage && s != NodeTIEElement && Reads(s, fid).Some?
    ensures exists i :: 0 <= i < |Writes(s)| && Writes(s)[i].fid == fid
  {
    match s
    case ProtocolPacket => assert var w := Writes(ProtocolPacket); w[0].fid == 1 && w[1].fid == 2;
    case PacketHeader =>
      assert var w := Writes(PacketHeader);
             && w[0].fid == 1 && w[1].fid == 2 && w[2].fid == 3 && w[3].fid == 4;
    case PacketContent =>
      assert var w := Writes(PacketContent);
             && w[0].fid == 1 && w[1].fid == 2 && w[2].fid == 3 && w[3].fid == 4;
    case Neighbor => assert var w := Writes(Neighbor); w[0].fid == 1 && w[1].fid == 2;
    case NodeCapabilities => assert var w := Writes(NodeCapabilities); w[0].fid == 1 && w[1].fid == 2 && w[2].fid == 3;
    case LinkCapabilities => assert var w := Writes(LinkCapabilities); w[0].fid == 1 && w[1].fid == 2;
    case Timestamp => assert var w := Writes(Timestamp); w[0].fid == 1 && w[1].fid == 2;
    case TieID => assert var w := Writes(TieID); w[0].fid == 1 && w[1].fid == 2 && w[2].fid == 3 && w[3].fid == 4;
    case TieHeader =>
      assert var w := Writes(TieHeader);
             && w[0].fid == 2 && w[1].fid == 3 && w[2].fid == 10 && w[3].fid == 12;
    case HeaderWithLifeTime => assert var w := Writes(HeaderWithLifeTime); w[0].fid == 1 && w[1].fid == 2;
    case TIDEMessage => assert var w := Writes(TIDEMessage); w[0].fid == 1 && w[1].fid == 2 && w[2].fid == 3;
    case TIREMessage => assert var w := Writes(TIREMessage); w[0].fid == 1;
    case TIEMessage => assert var w := Writes(TIEMessage); w[0].fid == 1 && w[1].fid == 2;
    case TIEElement =>
      assert var w := Writes(TIEElement);
             && w[0].fid == 1 && w[1].fid == 2 && w[2].fid == 3 && w[3].fid == 5 && w[4].fid == 6 && w[5].fid == 7
             && w[6].fid == 9;
    case NodeNeighbors =>
      assert var w := Writes(NodeNeighbors);
             && w[0].fid == 1 && w[1].fid == 3 && w[2].fid == 4 && w[3].fid == 5;
    case NodeFlags => assert var w := Writes(NodeFlags); w[0].fid == 1;
    case LinkIDPair =>
      assert var w := Writes(LinkIDPair);
             && w[0].fid == 1 && w[1].fid == 2 && w[2].fid == 10 && w[3].fid == 11 && w[4].fid == 12
             && w[5].fid == 13 && w[6].fid == 14;
    case PrefixType => assert var w := Writes(PrefixType); w[0].fid == 1 && w[1].fid == 2;
    case IPv4PrefixType => assert var w := Writes(IPv4PrefixType); w[0].fid == 1 && w[1].fid == 2;
    case IPv6PrefixType => assert var w := Writes(IPv6PrefixType); w[0].fid == 1 && w[1].fid == 2;
    case PrefixAttributes =>
      assert var w := Writes(PrefixAttributes);
             && w[0].fid == 2 && w[1].fid == 3 && w[2].fid == 4 && w[3].fid == 6 && w[4].fid == 7 && w[5].fid == 10
             && w[6].fid == 12;
    case PrefixSequence => assert var w := Writes(PrefixSequence); w[0].fid == 1 && w[1].fid == 2;
    case PrefixTIEElement => assert var w := Writes(PrefixTIEElement); w[0].fid == 1;
    case KeyValueTIEElement => assert var w := Writes(KeyValueTIEElement); w[0].fid == 1;
    case KeyValueContent => assert var w := Writes(KeyValueContent); w[0].fid == 1 && w[1].fid == 2;
  }

  /**
   * Which variant stands for what: LIE, TIDE, TIRE and TIE; Node, Prefix, disaggregation and key TIEs; IPv4 and IPv6.
   */
  lemma Variants()
    ensures Reads(PacketContent, 1) == Some(KRec(LIEMessage, false))
    ensures Reads(PacketContent, 2) == Some(KRec(TIDEMessage, false))
    ensures Reads(PacketContent, 3) == Some(KRec(TIREMessage, false))
    ensures Reads(PacketContent, 4) == Some(KRec(TIEMessage, false))
    ensures Reads(TIEElement, 1) == Some(KRec(NodeTIEElement, false))
    ensures Reads(TIEElement, 2) == Reads(TIEElement, 3) == Reads(TIEElement, 5) == Some(KRec(PrefixTIEElement, false))
    ensures Reads(TIEElement, 9) == Some(KRec(KeyValueTIEElement, false))
    ensures Reads(PrefixType, 1) == Some(KRec(IPv4PrefixType, false))
    ensures Reads(PrefixType, 2) == Some(KRec(IPv6PrefixType, false))
  {
  }
}
