/** The Encoder: a stream that grows, written from a packet in the encoder's order. */
module CodecEncoder {
  import opened RiftTypes
  import opened Wire
  import opened Schema
  import opened Codec
  import opened CodecRoundTrip

  // ---- What may be handed to the encoder ----

  /**
   * A value of the Go type: of the right shape, required fields there. Sizes, ranges and variants are not its type's
   * business.
   */
  ghost predicate Shaped(kind: Kind, v: Value)
    decreases v
  {
    match kind
    case KBool => v.VBool?
    case KText => v.VText?
    case KRec(s, _) =>
      && v.VRec? && (forall i :: 0 <= i < |Writes(s)| && Writes(s)[i].when == Always ==> Writes(s)[i].fid in v.fields)
      && forall fid :: fid in v.fields ==> Reads(s, fid).Some? && Shaped(Reads(s, fid).value, v.fields[fid])
    case KSeqOf(_, elem) => v.VSeq? && forall i :: 0 <= i < |v.items| ==> Shaped(KRec(elem, false), v.items[i])
    case KSetOf(w) => v.VSet? && Width(w)
    case KPairs(key, val) =>
      v.VPairs? && forall i :: 0 <= i < |v.pairs| ==>
        Shaped(KRec(key, false), v.pairs[i].key) && Shaped(KRec(val, false), v.pairs[i].value)
    case KMapOf(w, val, _) =>
      v.VMap? && Width(w) && forall k :: k in v.entries ==> Shaped(KRec(val, false), v.entries[k])
    case _ => v.VNum?
  }

  ghost predicate PairShaped(key: Name, val: Name, p: Pair) {
    Shaped(KRec(key, false), p.key) && Shaped(KRec(val, false), p.value)
  }

  ghost predicate PairEncodable(key: Name, val: Name, p: Pair) {
    Encodable(KRec(key, false), p.key) && Encodable(KRec(val, false), p.value)
  }

  ghost predicate PairsEncodable(key: Name, val: Name, ps: seq<Pair>) {
    forall i :: 0 <= i < |ps| ==> PairEncodable(key, val, ps[i])
  }

  ghost predicate PairEncodes(key: Name, val: Name, p: Pair, k: Term, v: Term) {
    Encodes(KRec(key, false), p.key, k) && Encodes(KRec(val, false), p.value, v)
  }

  /** The first field set, of a union. */
  function FirstSet(outs: seq<Out>, fields: Record): Option<int> {
    if outs == [] then None else if Emitted(outs[0], fields) then Some(outs[0].fid) else FirstSet(outs[1..], fields)
  }

  predicate IsWritten(s: Name, fields: Record, fid: int) {
    && fid in fields
    && if IsUnion(s) then FirstSet(Writes(s), fields) == Some(fid)
       else exists i :: 0 <= i < |Writes(s)| && Writes(s)[i].fid == fid && Emitted(Writes(s)[i], fields)
  }

  /** Every packet content and TIE element that would be written has a variant set. */
  ghost predicate Encodable(kind: Kind, v: Value)
    decreases v
  {
    match kind
    case KRec(s, _) =>
      && v.VRec? && (NeedsVariant(s) ==> FirstSet(Writes(s), v.fields).Some?)
      && forall fid :: fid in v.fields && Reads(s, fid).Some? && IsWritten(s, v.fields, fid) ==>
           Encodable(Reads(s, fid).value, v.fields[fid])
    case KSeqOf(_, elem) => v.VSeq? && forall i :: 0 <= i < |v.items| ==> Encodable(KRec(elem, false), v.items[i])
    case KPairs(key, val) =>
      && v.VPairs?
      && (forall i :: 0 <= i < |v.pairs| ==> Encodable(KRec(key, false), v.pairs[i].key))
      && (forall i :: 0 <= i < |v.pairs| ==> Encodable(KRec(val, false), v.pairs[i].value))
    case KMapOf(_, val, _) => v.VMap? && forall k :: k in v.entries ==> Encodable(KRec(val, false), v.entries[k])
    case _ => true
  }

  // ---- Items built up from the front ----

  function Then(items: Items, t: Term): Items {
    if items.NoItem? then Item(t, NoItem) else Item(items.value, Then(items.more, t))
  }

  lemma {:induction false} ThenBytes(items: Items, t: Term)
    ensures ItemBytes(Then(items, t)) == ItemBytes(items) + Bytes(t)
    ensures ItemCount(Then(items, t)) == ItemCount(items) + 1
  {
    hide Bytes;
    match items
    case NoItem => assert Bytes(t) + ItemBytes(NoItem) == ItemBytes(NoItem) + Bytes(t);
    case Item(value, more) => ThenBytes(more, t);
  }

  lemma {:induction false} ThenEncodes(elem: Name, vs: seq<Value>, v: Value, items: Items, t: Term)
    requires EncodesItems(elem, vs, items) && Encodes(KRec(elem, false), v, t)
    ensures EncodesItems(elem, vs + [v], Then(items, t))
    decreases items
  {
    hide Encodes;
    if vs != [] {
      ThenEncodes(elem, vs[1..], v, items.more, t);
      assert (vs + [v])[1..] == vs[1..] + [v];
    }
  }

  lemma {:induction false} ThenNum(w: nat, order: seq<int>, n: int, items: Items)
    requires EncodesNums(w, order, items)
    ensures EncodesNums(w, order + [n], Then(items, NumTerm(w, n)))
    decreases items
  {
    if order != [] {
      ThenNum(w, order[1..], n, items.more);
      assert (order + [n])[1..] == order[1..] + [n];
    }
  }

  function ThenEntry(es: Entries, k: Term, v: Term): Entries {
    if es.NoEntry? then Entries.Entry(k, v, NoEntry) else Entries.Entry(es.key, es.value, ThenEntry(es.more, k, v))
  }

  lemma {:induction false} ThenEntryBytes(es: Entries, k: Term, v: Term)
    ensures EntryBytes(ThenEntry(es, k, v)) == EntryBytes(es) + (Bytes(k) + Bytes(v))
    ensures EntryCount(ThenEntry(es, k, v)) == EntryCount(es) + 1
  {
    hide Bytes;
    match es
    case NoEntry => assert Bytes(k) + (Bytes(v) + EntryBytes(NoEntry)) == EntryBytes(NoEntry) + (Bytes(k) + Bytes(v));
    case Entry(key, value, more) =>
      ThenEntryBytes(more, k, v);
      assert Bytes(key) + (Bytes(value) + (EntryBytes(more) + (Bytes(k) + Bytes(v)))) ==
               EntryBytes(es) + (Bytes(k) + Bytes(v));
  }

  lemma {:induction false} ThenPair(key: Name, val: Name, vs: seq<Pair>, p: Pair, es: Entries, k: Term, v: Term)
    requires EncodesPairs(key, val, vs, es) && PairEncodes(key, val, p, k, v)
    ensures EncodesPairs(key, val, vs + [p], ThenEntry(es, k, v))
    decreases es
  {
    hide Encodes;
    if vs != [] {
      ThenPair(key, val, vs[1..], p, es.more, k, v);
      LongerPairs(key, val, vs, p, es, ThenEntry(es.more, k, v));
    } else {
      hide EncodesPairs;
      assert vs + [p] == [p];
      OnlyPair(key, val, p, k, v);
    }
  }

  lemma LongerPairs(key: Name, val: Name, vs: seq<Pair>, p: Pair, es: Entries, more: Entries)
    requires vs != [] && EncodesPairs(key, val, vs, es) && EncodesPairs(key, val, vs[1..] + [p], more)
    ensures es.Entry? && EncodesPairs(key, val, vs + [p], Entries.Entry(es.key, es.value, more))
  {
    hide Encodes;
    assert (vs + [p])[1..] == vs[1..] + [p] && (vs + [p])[0] == vs[0];
  }

  lemma OnlyPair(key: Name, val: Name, p: Pair, k: Term, v: Term)
    requires Encodes(KRec(key, false), p.key, k) && Encodes(KRec(val, false), p.value, v)
    ensures EncodesPairs(key, val, [p], Entries.Entry(k, v, NoEntry))
  {
    hide Encodes;
    assert [p][1..] == [];
  }

  lemma {:induction false} ThenKeyed(w: nat, val: Name, order: seq<int>, n: int, m: map<int, Value>, es: Entries,
                                     v: Term)
    requires EncodesEntries(w, val, order, m, es) && n in m && Encodes(KRec(val, false), m[n], v)
    ensures EncodesEntries(w, val, order + [n], m, ThenEntry(es, NumTerm(w, n), v))
    decreases es
  {
    hide Encodes, NumTerm;
    if order != [] {
      ThenKeyed(w, val, order[1..], n, m, es.more, v);
      assert (order + [n])[1..] == order[1..] + [n];
    }
  }

  lemma NumTermBytes(w: nat, n: int)
    requires Width(w)
    ensures Bytes(NumTerm(w, n)) == NumBytes(n, w)
  {
  }

  lemma ListBytes(start: seq<Byte>, tag: Byte, etype: Byte, items: Items)
    ensures start + ([etype] + NumBytes(ItemCount(items), 4)) + ItemBytes(items) ==
              start + Bytes(TList(tag, etype, items))
  {
    hide NumBytes;
    var x, y := NumBytes(ItemCount(items), 4), ItemBytes(items);
    assert start + ([etype] + x) + y == start + ([etype] + (x + y));
  }

  lemma MapBytes(start: seq<Byte>, ktype: Byte, es: Entries)
    ensures start + ([ktype] + ([STRUCT] + NumBytes(EntryCount(es), 4))) + EntryBytes(es) ==
              start + Bytes(TMap(ktype, STRUCT, es))
  {
    hide NumBytes;
    var x, y := NumBytes(EntryCount(es), 4), EntryBytes(es);
    assert start + ([ktype] + ([STRUCT] + x)) + y == start + ([ktype] + ([STRUCT] + (x + y)));
  }

  lemma MapValueSmaller(v: Value, k: int)
    requires v.VMap? && k in v.entries
    ensures v.entries[k] < v
  {
  }

  lemma Joined(a: seq<Byte>, b: seq<Byte>, c: seq<Byte>)
    ensures a + b + c == a + (b + c)
  {
  }

  lemma PairBoth(key: Name, val: Name, p: Pair)
    ensures PairEncodable(key, val, p) <==> Encodable(KRec(key, false), p.key) && Encodable(KRec(val, false), p.value)
    ensures PairShaped(key, val, p) <==> Shaped(KRec(key, false), p.key) && Shaped(KRec(val, false), p.value)
  {
    hide Encodable, Shaped;
  }

  lemma PairsOneMore(key: Name, val: Name, ps: seq<Pair>, i: nat)
    requires i < |ps| && PairsEncodable(key, val, ps[..i]) && PairEncodable(key, val, ps[i])
    ensures PairsEncodable(key, val, ps[..i + 1])
  {
    hide PairEncodable;
    assert ps[..i + 1] == ps[..i] + [ps[i]];
  }

  lemma PairsStuck(key: Name, val: Name, ps: seq<Pair>, i: nat)
    requires i < |ps| && !PairEncodable(key, val, ps[i])
    ensures !PairsEncodable(key, val, ps)
  {
    hide PairEncodable;
  }

  lemma PairsStart(key: Name, val: Name, ps: seq<Pair>)
    ensures PairsEncodable(key, val, ps[..0]) && EncodesPairs(key, val, ps[..0], NoEntry) && EntryBytes(NoEntry) == []
    ensures ps[..|ps|] == ps
  {
  }

  lemma PairSmaller(v: Value, i: nat)
    requires v.VPairs? && i < |v.pairs|
    ensures v.pairs[i] < v
  {
  }

  lemma AllListed(order: seq<int>, keys: set<int>)
    requires Lists(order, keys)
    ensures forall k :: k in keys ==> exists j :: 0 <= j < |order| && order[j] == k
  {
    assert forall k :: k in keys ==> k in Elements(order);
  }

  lemma ShapedEither(s: Name, inline: bool, v: Value)
    requires Shaped(KRec(s, inline), v)
    ensures v.VRec? && Shaped(KRec(s, false), v)
  {
    hide Writes, Reads;
  }

  lemma EncodableEither(s: Name, inline: bool, v: Value)
    ensures Encodable(KRec(s, inline), v) <==> Encodable(KRec(s, false), v)
  {
    hide Writes, Reads, IsWritten, FirstSet;
  }

  /** Some order of a set. */
  method AnyOrder(s: set<int>) returns (order: seq<int>)
    ensures Lists(order, s)
  {
    order := [];
    var todo := s;
    while |todo| > 0
      invariant todo <= s && Elements(order) == s - todo && |order| == |s| - |todo|
      decreases |todo|
    {
      ghost var some := Pick(todo);
      var n :| n in todo;
      assert Elements(order + [n]) == Elements(order) + {n};
      assert s - (todo - {n}) == (s - todo) + {n};
      order, todo := order + [n], todo - {n};
    }
    assert s - todo == s;
  }

  predicate InKeyOrder(order: seq<int>) { forall i, j :: 0 <= i < j < |order| ==> order[i] < order[j] }

  method Smallest(s: set<int>) returns (least: int)
    requires s != {}
    ensures least in s && forall n :: n in s ==> least <= n
  {
    ghost var some := Pick(s);
    least :| least in s;
    var todo := s - {least};
    while |todo| > 0
      invariant todo <= s && least in s && forall n :: n in s && n !in todo ==> least <= n
      decreases |todo|
    {
      ghost var one := Pick(todo);
      var n :| n in todo;
      todo := todo - {n};
      if n < least { least := n; }
    }
  }

  ghost predicate SortedSoFar(order: seq<int>, s: set<int>, todo: set<int>) {
    && todo <= s && Elements(order) == s - todo && |order| == |s| - |todo|
    && InKeyOrder(order) && forall i, n :: 0 <= i < |order| && n in todo ==> order[i] < n
  }

  lemma OneKeyMore(order: seq<int>, s: set<int>, todo: set<int>, n: int)
    requires SortedSoFar(order, s, todo) && n in todo && forall k :: k in todo ==> n <= k
    ensures SortedSoFar(order + [n], s, todo - {n})
  {
    assert Elements(order + [n]) == Elements(order) + {n};
    assert s - (todo - {n}) == (s - todo) + {n};
  }

  /** The elements of a set in ascending order, as sort.Slice leaves them. */
  method SortedOrder(s: set<int>) returns (order: seq<int>)
    ensures Lists(order, s) && InKeyOrder(order)
  {
    order := [];
    var todo := s;
    assert SortedSoFar(order, s, todo);
    while |todo| > 0
      invariant SortedSoFar(order, s, todo)
      decreases |todo|
    {
      hide SortedSoFar;
      assert todo != {};
      var n := Smallest(todo);
      OneKeyMore(order, s, todo, n);
      order, todo := order + [n], todo - {n};
    }
    assert s - todo == s;
  }

  function KeyNums(es: Entries): seq<int> { if es.NoEntry? then [] else [NumOf(es.key)] + KeyNums(es.more) }

  lemma {:induction false} KeysInOrder(w: nat, val: Name, order: seq<int>, m: map<int, Value>, es: Entries)
    requires EncodesEntries(w, val, order, m, es)
    ensures KeyNums(es) == order
    decreases es
  {
    hide Encodes;
    if order != [] {
      KeysInOrder(w, val, order[1..], m, es.more);
      assert order == [order[0]] + order[1..];
    }
  }

  lemma OneKind(s: Name, i: nat, v: Value)
    requires i < |Writes(s)| && Shaped(KRec(s, false), v) && Writes(s)[i].fid in v.fields
    ensures Reads(s, Writes(s)[i].fid) == Some(Writes(s)[i].kind)
    ensures Shaped(Writes(s)[i].kind, v.fields[Writes(s)[i].fid])
  {
    hide Writes, Reads;
    TablesAgree(s, i);
  }

  lemma FieldSmaller(v: Value, fid: int)
    requires v.VRec? && fid in v.fields
    ensures v.fields[fid] < v
  {
  }

  function KindType(kind: Kind): Byte {
    match kind
    case KBool => BOOL
    case KByte => BYTE
    case KI16 => I16
    case KI32 => I32
    case KI64 => I64
    case KText => STRING
    case KRec(_, _) => STRUCT
    case KSeqOf(tag, _) => tag
    case KSetOf(_) => SET
    case KPairs(_, _) => MAP
    case KMapOf(_, _, _) => MAP
  }

  /** Of every field of a struct: its identifier, its type code as a number, and when it is written. */
  function Signature(outs: seq<Out>): (sig: seq<(int, int, When)>)
    ensures |sig| == |outs|
  {
    seq(|outs|, i requires 0 <= i < |outs| => (outs[i].fid, KindType(outs[i].kind) as int, outs[i].when))
  }

  /** The fields of packets, LIEs and what they hold. */
  lemma PacketSignatures()
    ensures Signature(Writes(ProtocolPacket)) == [(1, 12, Always), (2, 12, Always)]
    ensures Signature(Writes(PacketHeader)) == [(1, 3, Always), (2, 6, Always), (3, 10, Always), (4, 3, IfSet)]
    ensures Signature(Writes(PacketContent)) == [(1, 12, IfSet), (2, 12, IfSet), (3, 12, IfSet), (4, 12, IfSet)]
    ensures Signature(Writes(LIEMessage)) ==
              [(1, 11, IfNonEmpty), (2, 8, Always), (3, 6, Always), (4, 8, IfSet), (5, 8, IfSet),
               (6, 12, IfSet), (7, 8, IfSet), (10, 12, Always), (11, 12, IfSet), (12, 6, Always),
               (13, 8, IfSet), (21, 2, IfSet), (22, 2, IfSet), (23, 2, IfSet), (24, 11, IfNonEmpty),
               (35, 8, IfSet)]
    ensures Signature(Writes(Neighbor)) == [(1, 10, Always), (2, 8, Always)]
    ensures Signature(Writes(NodeCapabilities)) == [(1, 6, Always), (2, 2, IfSet), (3, 8, IfSet)]
    ensures Signature(Writes(LinkCapabilities)) == [(1, 2, IfSet), (2, 2, IfSet)]
    ensures Signature(Writes(Timestamp)) == [(1, 10, Always), (2, 8, IfSet)]
  {
  }

  /** The fields of TIE headers and what lists them. */
  lemma TieSignatures()
    ensures Signature(Writes(TieID)) == [(1, 8, Always), (2, 10, Always), (3, 8, Always), (4, 8, Always)]
    ensures Signature(Writes(TieHeader)) == [(2, 12, Always), (3, 10, Always), (10, 12, IfSet), (12, 8, IfSet)]
    ensures Signature(Writes(HeaderWithLifeTime)) == [(1, 12, Always), (2, 8, Always)]
    ensures Signature(Writes(TIDEMessage)) == [(1, 12, Always), (2, 12, Always), (3, 15, Always)]
    ensures Signature(Writes(TIREMessage)) == [(1, 14, Always)]
    ensures Signature(Writes(TIEMessage)) == [(1, 12, Always), (2, 12, Always)]
    ensures Signature(Writes(TIEElement)) ==
              [(1, 12, IfSet), (2, 12, IfSet), (3, 12, IfSet), (5, 12, IfSet), (6, 12, IfSet), (7, 12, IfSet),
               (9, 12, IfSet)]
  {
  }

  /** The fields of Node TIEs. */
  lemma NodeSignatures()
    ensures Signature(Writes(NodeTIEElement)) ==
              [(1, 3, Always), (2, 13, Always), (3, 12, Always), (4, 12, IfSet), (5, 11, IfNonEmpty),
               (6, 8, IfSet), (7, 10, IfSet), (10, 14, IfNonEmpty), (12, 14, IfNonEmpty), (20, 8, IfSet)]
    ensures Signature(Writes(NodeNeighbors)) == [(1, 3, Always), (3, 8, IfSet), (4, 14, IfNonEmpty), (5, 8, IfSet)]
    ensures Signature(Writes(NodeFlags)) == [(1, 2, IfSet)]
    ensures Signature(Writes(LinkIDPair)) ==
              [(1, 8, Always), (2, 8, Always), (10, 8, IfSet), (11, 11, IfNonEmpty), (12, 3, IfSet),
               (13, 2, IfSet), (14, 14, IfNonEmpty)]
    ensures Signature(Writes(PrefixType)) == [(1, 12, IfSet), (2, 12, IfSet)]
    ensures Signature(Writes(IPv4PrefixType)) == [(1, 8, Always), (2, 3, Always)]
  {
  }

  /** The fields of prefixes and keys. */
  lemma PrefixSignatures()
    ensures Signature(Writes(IPv6PrefixType)) == [(1, 11, Always), (2, 3, Always)]
    ensures Signature(Writes(PrefixAttributes)) ==
              [(2, 8, Always), (3, 14, IfNonEmpty), (4, 12, IfSet), (6, 2, IfSet), (7, 2, IfSet),
               (10, 8, IfSet), (12, 8, IfSet)]
    ensures Signature(Writes(PrefixSequence)) == [(1, 12, Always), (2, 3, IfSet)]
    ensures Signature(Writes(PrefixTIEElement)) == [(1, 13, Always)]
    ensures Signature(Writes(KeyValueTIEElement)) == [(1, 13, Always)]
    ensures Signature(Writes(KeyValueContent)) == [(1, 10, IfSet), (2, 11, IfSet)]
  {
  }

  lemma TypeWritten(kind: Kind, v: Value, t: Term)
    requires Encodes(kind, v, t)
    ensures TypeCode(t) == KindType(kind)
  {
    hide EncodesFields, EncodesVariant, EncodesItems, EncodesNums, EncodesPairs, EncodesEntries, Writes;
  }

  /** The fields from the i-th on can be written. */
  ghost predicate EncodableFrom(s: Name, i: nat, v: Value)
    requires v.VRec?
  {
    forall j :: i <= j < |Writes(s)| && Emitted(Writes(s)[j], v.fields) ==>
      Encodable(Writes(s)[j].kind, v.fields[Writes(s)[j].fid])
  }

  ghost predicate VariantEncodable(s: Name, i: nat, v: Value)
    requires v.VRec? && i <= |Writes(s)|
  {
    match FirstSet(Writes(s)[i..], v.fields)
    case None => !NeedsVariant(s)
    case Some(fid) => fid in v.fields && Reads(s, fid).Some? && Encodable(Reads(s, fid).value, v.fields[fid])
  }

  lemma StructEncodable(s: Name, v: Value)
    requires Shaped(KRec(s, false), v)
    ensures v.VRec? && (if IsUnion(s) then VariantEncodable(s, 0, v) else EncodableFrom(s, 0, v)) <==>
              Encodable(KRec(s, false), v)
  {
    hide Writes, Reads, Emitted;
    assert Writes(s)[0..] == Writes(s);
    forall i | 0 <= i < |Writes(s)| ensures Reads(s, Writes(s)[i].fid) == Some(Writes(s)[i].kind) { TablesAgree(s, i); }
    if IsUnion(s) {
      FirstIsSet(s, 0, v.fields);
    } else {
      assert !NeedsVariant(s);
      EmittedIn(s, v.fields);
    }
  }

  lemma EmittedIn(s: Name, fields: Record)
    ensures forall j :: 0 <= j < |Writes(s)| && Emitted(Writes(s)[j], fields) ==> Writes(s)[j].fid in fields
  {
    hide Writes;
  }

  lemma {:induction false} FirstIsSet(s: Name, i: nat, fields: Record)
    requires i <= |Writes(s)|
    ensures var f := FirstSet(Writes(s)[i..], fields); f.Some? ==> f.value in fields && Reads(s, f.value).Some?
    decreases |Writes(s)| - i
  {
    hide Writes, Reads;
    if i < |Writes(s)| {
      assert Writes(s)[i..][0] == Writes(s)[i] && Writes(s)[i..][1..] == Writes(s)[i + 1..];
      TablesAgree(s, i);
      FirstIsSet(s, i + 1, fields);
    }
  }

  lemma FieldWritten(start: seq<Byte>, kind: Kind, v: Value, fid: int, t: Term, more: Fields)
    requires Encodes(kind, v, t)
    ensures start + ([KindType(kind)] + NumBytes(fid, 2)) + Bytes(t) + FieldBytes(more) ==
              start + FieldBytes(Field(fid, t, more))
  {
    hide Bytes, NumBytes, Encodes, TypeCode;
    TypeWritten(kind, v, t);
    var x, y, z := NumBytes(fid, 2), Bytes(t), FieldBytes(more);
    assert FieldBytes(Field(fid, t, more)) == [TypeCode(t)] + (x + (y + z));
    assert start + ([TypeCode(t)] + x) + y + z == start + ([TypeCode(t)] + (x + (y + z)));
  }

  /** A packet starts with its header: a struct (12) under identifier 1. */
  lemma PacketStart(packet: Record, t: Term)
    requires Shaped(KRec(ProtocolPacket, false), VRec(packet)) && Encodes(KRec(ProtocolPacket, false), VRec(packet), t)
    ensures |Bytes(t)| >= 3 && Bytes(t)[..3] == [12, 0, 1]
  {
    hide Shaped, Bytes, FieldBytes, NumBytes, TypeCode;
    PacketHeadFirst(packet, t);
    var fs := t.fields;
    Codes(fs.value);
    FieldLayout(1, fs.value, fs.more);
    assert Bytes(t) == FieldBytes(fs) by { StructBytes(fs); }
    assert Bytes(t)[..3] == [12, 0, 1];
  }

  lemma StructBytes(fs: Fields)
    ensures Bytes(TStruct(fs)) == FieldBytes(fs)
  {
    hide FieldBytes;
  }

  lemma PacketHeadFirst(packet: Record, t: Term)
    requires Shaped(KRec(ProtocolPacket, false), VRec(packet)) && Encodes(KRec(ProtocolPacket, false), VRec(packet), t)
    ensures t.TStruct? && t.fields.Field? && t.fields.fid == 1 && t.fields.value.TStruct?
  {
    hide Encodes, Shaped, EncodesFields, Writes;
    FieldsOf(packet, t);
    HeaderThere(packet);
    PacketHeaderStruct(packet, t.fields);
  }

  lemma FieldsOf(packet: Record, t: Term)
    requires Encodes(KRec(ProtocolPacket, false), VRec(packet), t)
    ensures t.TStruct? && EncodesFields(Writes(ProtocolPacket), packet, t.fields)
  {
    hide EncodesFields, Writes;
  }

  lemma PacketHeaderStruct(packet: Record, fs: Fields)
    requires 1 in packet && EncodesFields(Writes(ProtocolPacket), packet, fs)
    ensures fs.Field? && fs.fid == 1 && fs.value.TStruct?
  {
    hide Encodes;
    assert Writes(ProtocolPacket)[0] == Out(1, KRec(PacketHeader, true), Always);
    StructWritten(PacketHeader, packet[1], fs.value);
  }

  lemma StructWritten(s: Name, v: Value, t: Term)
    requires Encodes(KRec(s, true), v, t)
    ensures t.TStruct?
  {
    hide EncodesFields, EncodesVariant, Writes;
  }

  lemma HeaderThere(packet: Record)
    requires Shaped(KRec(ProtocolPacket, false), VRec(packet))
    ensures 1 in packet
  {
    assert Writes(ProtocolPacket)[0] == Out(1, KRec(PacketHeader, true), Always);
  }

  class Encoder {
    var stream: seq<Byte>

    constructor ()
      ensures stream == []
    {
      stream := [];
    }

    method Write(bytes: seq<Byte>)
      modifies this
      ensures stream == old(stream) + bytes
    {
      stream := stream + bytes;
    }

    method WriteFieldHeader(ftype: Byte, fid: int)
      modifies this
      ensures stream == old(stream) + ([ftype] + NumBytes(fid, 2))
      ensures 0 <= fid < 0x8000 ==> stream == old(stream) + [ftype, fid / 0x100, fid % 0x100]
    {
      hide NumBytes;
      Write([ftype]);
      Write(NumBytes(fid, 2));
      if 0 <= fid < 0x8000 {
        TwoBytes(fid);
        assert [ftype] + [fid / 0x100, fid % 0x100] == [ftype, fid / 0x100, fid % 0x100];
      }
    }

    /** Writes a value, or reports that some union in it has no variant. */
    method EncodeValue(kind: Kind, v: Value) returns (ok: bool, ghost t: Term)
      requires Shaped(kind, v)
      modifies this
      ensures ok <==> Encodable(kind, v)
      ensures ok ==> Encodes(kind, v, t) && stream == old(stream) + Bytes(t)
      decreases v, 4, 0
    {
      hide NumBytes, EncodesFields, EncodesVariant, EncodesItems, EncodesPairs, EncodesEntries, EncodesNums, FirstSet,
        Writes, Lists;
      t := TBool(0);
      ok := true;
      match kind
      case KBool => t := TBool(if v.b then 1 else 0); Write([if v.b then 1 else 0]);
      case KByte => t := TByte(v.n); Write(NumBytes(v.n, 1));
      case KI16 => t := TI16(v.n); Write(NumBytes(v.n, 2));
      case KI32 => t := TI32(v.n); Write(NumBytes(v.n, 4));
      case KI64 => t := TI64(v.n); Write(NumBytes(v.n, 8));
      case KText =>
        t := TText(v.bytes);
        Write(NumBytes(|v.bytes|, 4));
        Write(v.bytes);
        assert stream == old(stream) + Bytes(t);
      case KRec(s, inline) => ok, t := EncodeStruct(s, inline, v);
      case KSeqOf(tag, elem) => ok, t := EncodeSlice(tag, elem, v);
      case KSetOf(w) => t := EncodeSet(w, v);
      case KPairs(key, val) => ok, t := EncodePairs(key, val, v);
      case KMapOf(w, val, merge) => ok, t := EncodeMap(w, val, merge, v);
    }

    method EncodeStruct(s: Name, inline: bool, v: Value) returns (ok: bool, ghost t: Term)
      requires Shaped(KRec(s, inline), v)
      modifies this
      ensures ok <==> Encodable(KRec(s, inline), v)
      ensures ok ==> Encodes(KRec(s, inline), v, t) && stream == old(stream) + Bytes(t)
      decreases v, 3, 0
    {
      hide Writes, Reads, Encodable, EncodesFields, EncodesVariant, Shaped;
      ghost var fs := NoField;
      ShapedEither(s, inline, v);
      StructEncodable(s, v);
      assert Writes(s)[0..] == Writes(s);
      if IsUnion(s) {
        ok, fs := EncodeVariant(s, 0, v);
      } else {
        ok, fs := EncodeFields(s, 0, v);
      }
      t := TStruct(fs);
      EncodableEither(s, inline, v);
    }

    /** The fields one after another, then the stop byte. */
    method EncodeFields(s: Name, i: nat, v: Value) returns (ok: bool, ghost fs: Fields)
      requires Shaped(KRec(s, false), v) && v.VRec? && i <= |Writes(s)|
      modifies this
      ensures ok <==> EncodableFrom(s, i, v)
      ensures ok ==> EncodesFields(Writes(s)[i..], v.fields, fs) && stream == old(stream) + FieldBytes(fs)
      decreases v, 2, |Writes(s)| - i
    {
      hide Writes, Reads, Encodable, Shaped, Encodes, Emitted, KindType, NumBytes;
      fs := NoField;
      if i == |Writes(s)| {
        Write([STOP]);
        return true, NoField;
      }
      var o := Writes(s)[i];
      assert Writes(s)[i..][0] == o && Writes(s)[i..][1..] == Writes(s)[i + 1..];
      if Emitted(o, v.fields) {
        EmittedPresent(o, v.fields);
        OneKind(s, i, v);
        FieldSmaller(v, o.fid);
        ghost var start := stream;
        WriteFieldHeader(KindType(o.kind), o.fid);
        ghost var t;
        ok, t := EncodeValue(o.kind, v.fields[o.fid]);
        if !ok { return; }
        ghost var more;
        ok, more := EncodeFields(s, i + 1, v);
        fs := Field(o.fid, t, more);
        FieldWritten(start, o.kind, v.fields[o.fid], o.fid, t, more);
      } else {
        ok, fs := EncodeFields(s, i + 1, v);
      }
    }

    /** The first variant set, then the stop byte. */
    method EncodeVariant(s: Name, i: nat, v: Value) returns (ok: bool, ghost fs: Fields)
      requires Shaped(KRec(s, false), v) && v.VRec? && i <= |Writes(s)|
      modifies this
      ensures ok <==> VariantEncodable(s, i, v)
      ensures ok ==> EncodesVariant(Writes(s)[i..], v.fields, fs) && stream == old(stream) + FieldBytes(fs)
      decreases v, 2, |Writes(s)| - i
    {
      hide Writes, Reads, Encodable, Shaped, Encodes, Emitted, KindType, NumBytes;
      fs := NoField;
      if i == |Writes(s)| {
        if NeedsVariant(s) { return false, NoField; }
        Write([STOP]);
        return true, NoField;
      }
      var o := Writes(s)[i];
      assert Writes(s)[i..][0] == o && Writes(s)[i..][1..] == Writes(s)[i + 1..];
      if Emitted(o, v.fields) {
        EmittedPresent(o, v.fields);
        OneKind(s, i, v);
        FieldSmaller(v, o.fid);
        ghost var start := stream;
        WriteFieldHeader(KindType(o.kind), o.fid);
        ghost var t;
        ok, t := EncodeValue(o.kind, v.fields[o.fid]);
        if !ok { return; }
        Write([STOP]);
        fs := Field(o.fid, t, NoField);
        FieldWritten(start, o.kind, v.fields[o.fid], o.fid, t, NoField);
      } else {
        ok, fs := EncodeVariant(s, i + 1, v);
      }
    }

    method WriteListHead(etype: Byte, n: nat)
      modifies this
      ensures stream == old(stream) + ([etype] + NumBytes(n, 4))
    {
      Write([etype]);
      Write(NumBytes(n, 4));
    }

    method EncodeSlice(tag: Byte, elem: Name, v: Value) returns (ok: bool, ghost t: Term)
      requires Shaped(KSeqOf(tag, elem), v)
      modifies this
      ensures ok <==> Encodable(KSeqOf(tag, elem), v)
      ensures ok ==> Encodes(KSeqOf(tag, elem), v, t) && stream == old(stream) + Bytes(t)
      decreases v, 3, 0
    {
      hide NumBytes, Writes, Reads, ItemBytes, EncodesItems;
      WriteListHead(STRUCT, |v.items|);
      ghost var items;
      ok, items := EncodeItems(elem, v);
      t := TList(tag, STRUCT, items);
      if ok { ListBytes(old(stream), tag, STRUCT, items); }
    }

    method EncodeItems(elem: Name, v: Value) returns (ok: bool, ghost items: Items)
      requires v.VSeq? && forall i :: 0 <= i < |v.items| ==> Shaped(KRec(elem, false), v.items[i])
      modifies this
      ensures ok <==> forall i :: 0 <= i < |v.items| ==> Encodable(KRec(elem, false), v.items[i])
      ensures ok ==>
          EncodesItems(elem, v.items, items) && ItemCount(items) == |v.items|
            && stream == old(stream) + ItemBytes(items)
      decreases v, 2, 0
    {
      hide Encodes, Encodable, Shaped, Bytes;
      items := NoItem;
      for i := 0 to |v.items|
        invariant forall j :: 0 <= j < i ==> Encodable(KRec(elem, false), v.items[j])
        invariant EncodesItems(elem, v.items[..i], items) && ItemCount(items) == i
        invariant stream == old(stream) + ItemBytes(items)
      {
        hide EncodesItems, ItemBytes;
        ghost var one;
        ok, one := EncodeValue(KRec(elem, false), v.items[i]);
        if !ok { return; }
        ThenBytes(items, one);
        Joined(old(stream), ItemBytes(items), Bytes(one));
        ThenEncodes(elem, v.items[..i], v.items[i], items, one);
        assert v.items[..i + 1] == v.items[..i] + [v.items[i]];
        items := Then(items, one);
      }
      assert v.items[..|v.items|] == v.items;
      ok := true;
    }

    method EncodeSet(w: nat, v: Value) returns (ghost t: Term)
      requires Shaped(KSetOf(w), v)
      modifies this
      ensures Encodes(KSetOf(w), v, t) && stream == old(stream) + Bytes(t)
      decreases v, 3, 0
    {
      hide NumBytes;
      var order := AnyOrder(v.elems);
      ghost var items, start := NoItem, old(stream) + ([NumType(w)] + NumBytes(|v.elems|, 4));
      WriteListHead(NumType(w), |v.elems|);
      for i := 0 to |order|
        invariant EncodesNums(w, order[..i], items) && ItemCount(items) == i && stream == start + ItemBytes(items)
      {
        hide EncodesNums, ItemBytes, Lists;
        Write(NumBytes(order[i], w));
        NumTermBytes(w, order[i]);
        ThenBytes(items, NumTerm(w, order[i]));
        Joined(start, ItemBytes(items), NumBytes(order[i], w));
        ThenNum(w, order[..i], order[i], items);
        assert order[..i + 1] == order[..i] + [order[i]];
        items := Then(items, NumTerm(w, order[i]));
      }
      assert order[..|order|] == order;
      t := TList(SET, NumType(w), items);
      ListBytes(old(stream), SET, NumType(w), items);
    }

    method WriteMapHead(ktype: Byte, n: nat)
      modifies this
      ensures stream == old(stream) + ([ktype] + ([STRUCT] + NumBytes(n, 4)))
    {
      Write([ktype]);
      Write([STRUCT]);
      Write(NumBytes(n, 4));
    }

    method EncodePairs(key: Name, val: Name, v: Value) returns (ok: bool, ghost t: Term)
      requires Shaped(KPairs(key, val), v)
      modifies this
      ensures ok <==> Encodable(KPairs(key, val), v)
      ensures ok ==> Encodes(KPairs(key, val), v, t) && stream == old(stream) + Bytes(t)
      decreases v, 3, 0
    {
      hide NumBytes, Writes, Reads, EntryBytes;
      WriteMapHead(STRUCT, |v.pairs|);
      ghost var es;
      ok, es := EncodePairEntries(key, val, v);
      t := TMap(STRUCT, STRUCT, es);
      if ok { MapBytes(old(stream), STRUCT, es); }
    }

    method EncodeOnePair(key: Name, val: Name, p: Pair) returns (ok: bool, ghost k: Term, ghost t: Term)
      requires PairShaped(key, val, p)
      modifies this
      ensures ok <==> PairEncodable(key, val, p)
      ensures ok ==> PairEncodes(key, val, p, k, t) && stream == old(stream) + (Bytes(k) + Bytes(t))
      decreases p, 1, 0
    {
      hide Encodes, Encodable, Shaped, Bytes, PairEncodable, PairShaped;
      PairBoth(key, val, p);
      t := TBool(0);
      ok, k := EncodeValue(KRec(key, false), p.key);
      if !ok { return; }
      ok, t := EncodeValue(KRec(val, false), p.value);
      Joined(old(stream), Bytes(k), Bytes(t));
    }

    method EncodePairEntries(key: Name, val: Name, v: Value) returns (ok: bool, ghost es: Entries)
      requires v.VPairs? && forall i :: 0 <= i < |v.pairs| ==> PairShaped(key, val, v.pairs[i])
      modifies this
      ensures ok <==> PairsEncodable(key, val, v.pairs)
      ensures ok ==>
          EncodesPairs(key, val, v.pairs, es) && EntryCount(es) == |v.pairs| && stream == old(stream) + EntryBytes(es)
      decreases v, 2, 0
    {
      hide Encodes, Encodable, Shaped, Bytes, PairShaped, PairEncodable, PairEncodes, PairsEncodable, EncodesPairs,
        EntryBytes, ThenEntry, Writes, Reads;
      PairsStart(key, val, v.pairs);
      es := NoEntry;
      for i := 0 to |v.pairs|
        invariant PairsEncodable(key, val, v.pairs[..i])
        invariant EncodesPairs(key, val, v.pairs[..i], es) && EntryCount(es) == i
        invariant stream == old(stream) + EntryBytes(es)
      {
        ghost var kt, vt;
        PairSmaller(v, i);
        ok, kt, vt := EncodeOnePair(key, val, v.pairs[i]);
        if !ok {
          PairsStuck(key, val, v.pairs, i);
          return;
        }
        PairsOneMore(key, val, v.pairs, i);
        ThenEntryBytes(es, kt, vt);
        Joined(old(stream), EntryBytes(es), Bytes(kt) + Bytes(vt));
        ThenPair(key, val, v.pairs[..i], v.pairs[i], es, kt, vt);
        assert v.pairs[..i + 1] == v.pairs[..i] + [v.pairs[i]];
        es := ThenEntry(es, kt, vt);
      }
      assert v.pairs[..|v.pairs|] == v.pairs;
      ok := true;
    }

    /** Keys of the neighbour map in ascending order, those of other maps in any. */
    method EncodeMap(w: nat, val: Name, merge: bool, v: Value) returns (ok: bool, ghost t: Term)
      requires Shaped(KMapOf(w, val, merge), v)
      modifies this
      ensures ok <==> Encodable(KMapOf(w, val, merge), v)
      ensures ok ==> Encodes(KMapOf(w, val, merge), v, t) && stream == old(stream) + Bytes(t)
      ensures ok && merge ==> InKeyOrder(KeyNums(t.entries))
      decreases v, 3, 0
    {
      hide NumBytes, Writes, Reads, EntryBytes, EncodesEntries, InKeyOrder, KeyNums;
      var order;
      if merge { order := SortedOrder(v.entries.Keys); } else { order := AnyOrder(v.entries.Keys); }
      AllListed(order, v.entries.Keys);
      WriteMapHead(NumType(w), |v.entries.Keys|);
      ghost var es;
      ok, es := EncodeKeyed(w, val, order, v);
      t := TMap(NumType(w), STRUCT, es);
      if ok {
        MapBytes(old(stream), NumType(w), es);
        KeysInOrder(w, val, order, v.entries, es);
      }
    }

    method EncodeKeyed(w: nat, val: Name, order: seq<int>, v: Value) returns (ok: bool, ghost es: Entries)
      requires Width(w) && v.VMap? && Lists(order, v.entries.Keys)
      requires forall k :: k in v.entries ==> Shaped(KRec(val, false), v.entries[k])
      modifies this
      ensures ok <==> forall k :: k in v.entries ==> Encodable(KRec(val, false), v.entries[k])
      ensures ok ==>
          EncodesEntries(w, val, order, v.entries, es) && EntryCount(es) == |order|
            && stream == old(stream) + EntryBytes(es)
      decreases v, 2, 0
    {
      hide Encodes, Encodable, Shaped, Bytes, NumBytes;
      es := NoEntry;
      var m := v.entries;
      AllListed(order, m.Keys);
      for i := 0 to |order|
        invariant forall j :: 0 <= j < i ==> order[j] in m && Encodable(KRec(val, false), m[order[j]])
        invariant EncodesEntries(w, val, order[..i], m, es) && EntryCount(es) == i
        invariant stream == old(stream) + EntryBytes(es)
      {
        hide EncodesEntries, EntryBytes, ThenEntry, NumTerm;
        assert order[i] in Elements(order);
        ghost var vt;
        Write(NumBytes(order[i], w));
        MapValueSmaller(v, order[i]);
        ok, vt := EncodeValue(KRec(val, false), m[order[i]]);
        if !ok { return; }
        NumTermBytes(w, order[i]);
        ThenEntryBytes(es, NumTerm(w, order[i]), vt);
        Joined(old(stream), EntryBytes(es), NumBytes(order[i], w) + Bytes(vt));
        Joined(old(stream) + EntryBytes(es), NumBytes(order[i], w), Bytes(vt));
        ThenKeyed(w, val, order[..i], order[i], m, es, vt);
        assert order[..i + 1] == order[..i] + [order[i]];
        es := ThenEntry(es, NumTerm(w, order[i]), vt);
      }
      assert order[..|order|] == order;
      ok := true;
    }

    method EncodeProtocolPacket(packet: Record) returns (ok: bool, ghost t: Term)
      requires Shaped(KRec(ProtocolPacket, false), VRec(packet))
      modifies this
      ensures ok <==> Encodable(KRec(ProtocolPacket, false), VRec(packet))
      ensures ok ==> Encodes(KRec(ProtocolPacket, false), VRec(packet), t) && stream == old(stream) + Bytes(t)
      ensures ok ==> old(stream) + [12, 0, 1] <= stream
    {
      hide Encodes, Shaped, Encodable, Bytes;
      ok, t := EncodeValue(KRec(ProtocolPacket, false), VRec(packet));
      if ok {
        PacketStart(packet, t);
        assert Bytes(t) == [12, 0, 1] + Bytes(t)[3..];
      }
    }
  }
}
