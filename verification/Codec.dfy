/** Decoding and encoding by the schema: what the decoder makes of bytes, and what the encoder's output means. */
module Codec {
  import opened RiftTypes
  import opened Wire
  import opened Schema

  // A record holds the fields that were set; a field it does not hold has its Go zero value (0, false, "", nil).
  datatype Value =
    | VBool(b: bool) | VNum(n: int) | VText(bytes: seq<Byte>)
    | VRec(fields: map<int, Value>) | VSeq(items: seq<Value>) | VSet(elems: set<int>)
    | VPairs(pairs: seq<Pair>) | VMap(entries: map<int, Value>)
  datatype Pair = Pair(key: Value, value: Value)

  type Record = map<int, Value>

  const MAX_COLLECTION := 10000

  /** What a fresh record holds before any field is read. */
  function Init(s: Name): Record {
    match s
    case LIEMessage => map[3 := VNum(915), 12 := VNum(3)]
    case PrefixAttributes => map[2 := VNum(1)]
    case NodeTIEElement => map[2 := VMap(map[])]
    case _ => map[]
  }

  /** The defaults as numbers, and the limit of a collection; every other field starts unset. */
  lemma Defaults(s: Name, fid: int)
    ensures fid in Init(s) <==>
              (s == LIEMessage && (fid == 3 || fid == 12)) || (s == PrefixAttributes && fid == 2)
              || (s == NodeTIEElement && fid == 2)
    ensures Init(LIEMessage) == map[3 := VNum(915), 12 := VNum(3)] && Init(PrefixAttributes) == map[2 := VNum(1)]
    ensures Init(NodeTIEElement) == map[2 := VMap(map[])]
    ensures MAX_COLLECTION == 10_000 && MAX_STRING == 1_048_576
  {
  }

  /** A boolean is one byte, true unless it is 0. */
  lemma BoolRead(x: Byte, rest: seq<Byte>)
    ensures DecKind(KBool, None, [x] + rest) == Ok(VBool(x != 0), rest)
  {
    FirstByte(x, rest);
  }

  function Old(r: Record, fid: int): Option<Value> { if fid in r then Some(r[fid]) else None }

  /** The record a nested struct is decoded into. */
  function Into(s: Name, inline: bool, prev: Option<Value>): Record {
    if inline && prev.Some? && prev.value.VRec? then prev.value.fields else Init(s)
  }

  function Onto(merge: bool, prev: Option<Value>): map<int, Value> {
    if merge && prev.Some? && prev.value.VMap? then prev.value.entries else map[]
  }

  // ---- Decoding ----

  function ReadCount(b: seq<Byte>): (r: Result<nat>)
    ensures r.Ok? ==> |r.rest| == |b| - 4 && r.value <= MAX_COLLECTION
  {
    var n := ReadNum(b, 4);
    if n.Err? || n.value < 0 || n.value > MAX_COLLECTION then Err else Ok(n.value, n.rest)
  }

  /** A count is accepted exactly from 0 to 10000. */
  lemma CountExactly(b: seq<Byte>)
    ensures ReadCount(b).Ok? <==> |b| >= 4 && 0 <= ReadNum(b, 4).value <= 10_000
    ensures ReadCount(b).Ok? ==> ReadCount(b) == Ok(ReadNum(b, 4).value, b[4..])
  {
    hide FromBigEndian, ToSigned;
    if |b| >= 4 { Enough(b, 4); }
  }

  /** Element type, ignored, and count. */
  function ReadSeqHead(b: seq<Byte>): (r: Result<nat>)
    ensures r.Ok? ==> |r.rest| < |b| && r.value <= MAX_COLLECTION
  {
    var t := ReadByte(b);
    if t.Err? then Err else ReadCount(t.rest)
  }

  function ReadMapHead(b: seq<Byte>): (r: Result<nat>)
    ensures r.Ok? ==> |r.rest| < |b| && r.value <= MAX_COLLECTION
  {
    var t := ReadByte(b);
    if t.Err? then Err else ReadSeqHead(t.rest)
  }

  function AsNum(r: Result<int>): Result<Value> { if r.Ok? then Ok(VNum(r.value), r.rest) else Err }

  function DecKind(kind: Kind, prev: Option<Value>, b: seq<Byte>): (r: Result<Value>)
    ensures r.Ok? ==> |r.rest| < |b|
    decreases |b|, 1
  {
    match kind
    case KBool => var x := ReadByte(b); if x.Err? then Err else Ok(VBool(x.value != 0), x.rest)
    case KByte => AsNum(ReadNum(b, 1))
    case KI16 => AsNum(ReadNum(b, 2))
    case KI32 => AsNum(ReadNum(b, 4))
    case KI64 => AsNum(ReadNum(b, 8))
    case KText => var x := ReadText(b); if x.Err? then Err else Ok(VText(x.value), x.rest)
    case KRec(s, inline) =>
      var x := DecFields(s, Into(s, inline, prev), b); if x.Err? then Err else Ok(VRec(x.value), x.rest)
    case KSeqOf(_, elem) =>
      var n := ReadSeqHead(b);
      if n.Err? then Err else
      var x := DecItems(elem, n.value, [], n.rest);
      if x.Err? then Err else Ok(VSeq(x.value), x.rest)
    case KSetOf(width) =>
      var n := ReadSeqHead(b);
      if n.Err? then Err else
      var x := DecNums(width, n.value, {}, n.rest);
      if x.Err? then Err else Ok(VSet(x.value), x.rest)
    case KPairs(key, val) =>
      var n := ReadMapHead(b);
      if n.Err? then Err else
      var x := DecPairs(key, val, n.value, [], n.rest);
      if x.Err? then Err else Ok(VPairs(x.value), x.rest)
    case KMapOf(width, val, merge) =>
      var n := ReadMapHead(b);
      if n.Err? then Err else
      var x := DecEntries(width, val, n.value, Onto(merge, prev), n.rest);
      if x.Err? then Err else Ok(VMap(x.value), x.rest)
  }

  /**
   * The loop every struct decoder runs: known identifiers by their kind, whatever the announced type; others skipped.
   */
  function DecFields(s: Name, r: Record, b: seq<Byte>): (x: Result<Record>)
    ensures x.Ok? ==> |x.rest| < |b|
    decreases |b|, 0
  {
    var h := ReadFieldHeader(b);
    if h.Err? then Err
    else if h.value.ftype == STOP then Ok(r, h.rest)
    else match Reads(s, h.value.fid)
      case Some(kind) =>
        var v := DecKind(kind, Old(r, h.value.fid), h.rest);
        if v.Err? then Err else DecFields(s, r[h.value.fid := v.value], v.rest)
      case None =>
        var v := Skip(h.value.ftype, h.rest);
        if v.Err? then Err else DecFields(s, r, v.rest)
  }

  function DecItems(elem: Name, n: nat, done: seq<Value>, b: seq<Byte>): (x: Result<seq<Value>>)
    ensures x.Ok? ==> |x.rest| <= |b|
    decreases |b|, 2
  {
    if n == 0 then Ok(done, b)
    else
      var v := DecKind(KRec(elem, false), None, b);
      if v.Err? then Err else DecItems(elem, n - 1, done + [v.value], v.rest)
  }

  function DecNums(width: nat, n: nat, done: set<int>, b: seq<Byte>): (x: Result<set<int>>)
    ensures x.Ok? ==> |x.rest| <= |b|
    decreases n
  {
    if n == 0 then Ok(done, b)
    else
      var v := ReadNum(b, width);
      if v.Err? then Err else DecNums(width, n - 1, done + {v.value}, v.rest)
  }

  function DecPairs(key: Name, val: Name, n: nat, done: seq<Pair>, b: seq<Byte>): (x: Result<seq<Pair>>)
    ensures x.Ok? ==> |x.rest| <= |b|
    decreases |b|, 2
  {
    if n == 0 then Ok(done, b)
    else
      var k := DecKind(KRec(key, false), None, b);
      if k.Err? then Err else
      var v := DecKind(KRec(val, false), None, k.rest);
      if v.Err? then Err else DecPairs(key, val, n - 1, done + [Pair(k.value, v.value)], v.rest)
  }

  function DecEntries(width: nat, val: Name, n: nat, done: map<int, Value>, b: seq<Byte>): (x: Result<map<int, Value>>)
    ensures x.Ok? ==> |x.rest| <= |b|
    decreases |b|, 3, n
  {
    if n == 0 then Ok(done, b)
    else
      var k := ReadNum(b, width);
      if k.Err? then Err else
      var v := DecKind(KRec(val, false), None, k.rest);
      if v.Err? then Err else DecEntries(width, val, n - 1, done[k.value := v.value], v.rest)
  }

  function DecodePacket(b: seq<Byte>): Result<Record> { DecFields(ProtocolPacket, Init(ProtocolPacket), b) }

  // ---- What a wire term means ----

  predicate Fits(kind: Kind, t: Term)
    decreases t
  {
    match kind
    case KBool => t.TBool?
    case KByte => t.TByte? && Flat(t)
    case KI16 => t.TI16? && Flat(t)
    case KI32 => t.TI32? && Flat(t)
    case KI64 => t.TI64? && Flat(t)
    case KText => t.TText? && Flat(t)
    case KRec(s, _) => t.TStruct? && FitsFields(s, t.fields)
    case KSeqOf(_, elem) =>
      t.TList? && (t.tag == SET || t.tag == LIST) && ItemCount(t.items) <= MAX_COLLECTION && FitsItems(elem, t.items)
    case KSetOf(width) =>
      t.TList? && (t.tag == SET || t.tag == LIST) && ItemCount(t.items) <= MAX_COLLECTION && FitsNums(width, t.items)
    case KPairs(key, val) => t.TMap? && EntryCount(t.entries) <= MAX_COLLECTION && FitsPairs(key, val, t.entries)
    case KMapOf(width, val, _) =>
      t.TMap? && EntryCount(t.entries) <= MAX_COLLECTION && FitsEntries(width, val, t.entries)
  }

  /** Known fields fit their kind; unknown ones are any well-formed value. */
  predicate FitsFields(s: Name, fs: Fields)
    decreases fs
  {
    fs.Field? ==>
      && Signed(fs.fid, 2)
      && (if Reads(s, fs.fid).Some? then Fits(Reads(s, fs.fid).value, fs.value) else WellTyped(fs.value))
      && FitsFields(s, fs.more)
  }

  predicate FitsItems(elem: Name, items: Items)
    decreases items
  {
    items.Item? ==> Fits(KRec(elem, false), items.value) && FitsItems(elem, items.more)
  }

  predicate IsNum(width: nat, t: Term) {
    if width == 4 then t.TI32? && Flat(t) else width == 8 && t.TI64? && Flat(t)
  }

  function NumOf(t: Term): int {
    if t.TI32? || t.TI64? then t.n else 0
  }

  predicate FitsNums(width: nat, items: Items)
    decreases items
  {
    items.Item? ==> IsNum(width, items.value) && FitsNums(width, items.more)
  }

  predicate FitsPairs(key: Name, val: Name, es: Entries)
    decreases es
  {
    es.Entry? ==> Fits(KRec(key, false), es.key) && Fits(KRec(val, false), es.value) && FitsPairs(key, val, es.more)
  }

  predicate FitsEntries(width: nat, val: Name, es: Entries)
    decreases es
  {
    es.Entry? ==> IsNum(width, es.key) && Fits(KRec(val, false), es.value) && FitsEntries(width, val, es.more)
  }

  function Meaning(kind: Kind, prev: Option<Value>, t: Term): Value
    requires Fits(kind, t)
    decreases t
  {
    match kind
    case KBool => VBool(t.raw != 0)
    case KByte => VNum(t.n)
    case KI16 => VNum(t.n)
    case KI32 => VNum(t.n)
    case KI64 => VNum(t.n)
    case KText => VText(t.bytes)
    case KRec(s, inline) => VRec(Interp(s, Into(s, inline, prev), t.fields))
    case KSeqOf(_, elem) => VSeq(ItemsMeaning(elem, [], t.items))
    case KSetOf(_) => VSet(NumsMeaning({}, t.items))
    case KPairs(key, val) => VPairs(PairsMeaning(key, val, [], t.entries))
    case KMapOf(width, val, merge) => VMap(EntriesMeaning(width, val, Onto(merge, prev), t.entries))
  }

  function Interp(s: Name, r: Record, fs: Fields): Record
    requires FitsFields(s, fs)
    decreases fs
  {
    match fs
    case NoField => r
    case Field(fid, value, more) =>
      if Reads(s, fid).Some? then Interp(s, r[fid := Meaning(Reads(s, fid).value, Old(r, fid), value)], more)
        else Interp(s, r, more)
  }

  function ItemsMeaning(elem: Name, done: seq<Value>, items: Items): seq<Value>
    requires FitsItems(elem, items)
    decreases items
  {
    if items.NoItem? then done
      else ItemsMeaning(elem, done + [Meaning(KRec(elem, false), None, items.value)], items.more)
  }

  function NumsMeaning(done: set<int>, items: Items): set<int>
    decreases items
  {
    if items.NoItem? then done else NumsMeaning(done + {NumOf(items.value)}, items.more)
  }

  function PairsMeaning(key: Name, val: Name, done: seq<Pair>, es: Entries): seq<Pair>
    requires FitsPairs(key, val, es)
    decreases es
  {
    if es.NoEntry? then done
    else PairsMeaning(key, val, done +
      [Pair(Meaning(KRec(key, false), None, es.key), Meaning(KRec(val, false), None, es.value))], es.more)
  }

  function EntriesMeaning(width: nat, val: Name, done: map<int, Value>, es: Entries): map<int, Value>
    requires FitsEntries(width, val, es)
    decreases es
  {
    if es.NoEntry? then done
    else EntriesMeaning(width, val, done[NumOf(es.key) := Meaning(KRec(val, false), None, es.value)], es.more)
  }

  // ---- The decoder finds the meaning, and consumes exactly the bytes ----

  lemma SeqHead(etype: Byte, items: Items, rest: seq<Byte>)
    requires ItemCount(items) <= MAX_COLLECTION
    ensures ReadSeqHead([etype] + (NumBytes(ItemCount(items), 4) + ItemBytes(items)) + rest) ==
              Ok(ItemCount(items), ItemBytes(items) + rest)
  {
    hide NumBytes, ReadNum, ReadByte;
    ListHead(etype, items, rest);
  }

  lemma PairHead(ktype: Byte, vtype: Byte, es: Entries, rest: seq<Byte>)
    requires EntryCount(es) <= MAX_COLLECTION
    ensures ReadMapHead([ktype] + ([vtype] + (NumBytes(EntryCount(es), 4) + EntryBytes(es))) + rest) ==
              Ok(EntryCount(es), EntryBytes(es) + rest)
  {
    hide NumBytes, ReadNum, ReadByte;
    MapHead(ktype, vtype, es, rest);
  }

  lemma FlatDecodes(kind: Kind, prev: Option<Value>, t: Term, rest: seq<Byte>)
    requires Fits(kind, t) && (kind.KBool? || kind.KByte? || kind.KI16? || kind.KI32? || kind.KI64? || kind.KText?)
    ensures DecKind(kind, prev, Bytes(t) + rest) == Ok(Meaning(kind, prev, t), rest)
  {
    hide NumBytes, ReadNum, ReadText, Signed;
    match t
    case TBool(raw) => FirstByte(raw, rest);
    case TByte(n) => NumRoundTrip(n, 1, rest);
    case TI16(n) => NumRoundTrip(n, 2, rest);
    case TI32(n) => NumRoundTrip(n, 4, rest);
    case TI64(n) => NumRoundTrip(n, 8, rest);
    case TText(bytes) => TextRoundTrip(bytes, rest);
    case _ =>
  }

  lemma {:induction false} Decodes(kind: Kind, prev: Option<Value>, t: Term, rest: seq<Byte>)
    requires Fits(kind, t)
    ensures DecKind(kind, prev, Bytes(t) + rest) == Ok(Meaning(kind, prev, t), rest)
    decreases t
  {
    hide NumBytes, ReadNum, ReadByte, ReadText, Signed, Reads, Init, ReadSeqHead, ReadMapHead;
    match kind
    case KRec(s, inline) => FieldsDecode(s, Into(s, inline, prev), t.fields, rest);
    case KSeqOf(_, elem) =>
      SeqHead(t.etype, t.items, rest);
      ItemsDecode(elem, [], t.items, rest);
    case KSetOf(width) =>
      SeqHead(t.etype, t.items, rest);
      NumsDecode(width, {}, t.items, rest);
    case KPairs(key, val) =>
      PairHead(t.ktype, t.vtype, t.entries, rest);
      PairsDecode(key, val, [], t.entries, rest);
    case KMapOf(width, val, merge) =>
      PairHead(t.ktype, t.vtype, t.entries, rest);
      EntriesDecode(width, val, Onto(merge, prev), t.entries, rest);
    case _ => FlatDecodes(kind, prev, t, rest);
  }

  lemma FitsNotStop(kind: Kind, t: Term)
    requires Fits(kind, t) || WellTyped(t)
    ensures TypeCode(t) != STOP
  {
    hide FitsFields, FitsItems, FitsPairs, FitsEntries, FitsNums, Flat;
  }

  lemma KnownField(s: Name, r: Record, b: seq<Byte>, h: Header, b1: seq<Byte>, v: Value, b2: seq<Byte>)
    requires ReadFieldHeader(b) == Ok(h, b1) && h.ftype != STOP && Reads(s, h.fid).Some?
    requires DecKind(Reads(s, h.fid).value, Old(r, h.fid), b1) == Ok(v, b2)
    ensures DecFields(s, r, b) == DecFields(s, r[h.fid := v], b2)
  {
    hide DecKind, Reads, ReadFieldHeader;
  }

  lemma UnknownField(s: Name, r: Record, b: seq<Byte>, h: Header, b1: seq<Byte>, b2: seq<Byte>)
    requires ReadFieldHeader(b) == Ok(h, b1) && h.ftype != STOP && Reads(s, h.fid).None?
    requires Skip(h.ftype, b1) == Ok((), b2)
    ensures DecFields(s, r, b) == DecFields(s, r, b2)
  {
    hide DecKind, Reads, ReadFieldHeader, Skip;
  }

  lemma {:induction false} FieldsDecode(s: Name, r: Record, fs: Fields, rest: seq<Byte>)
    requires FitsFields(s, fs)
    ensures DecFields(s, r, FieldBytes(fs) + rest) == Ok(Interp(s, r, fs), rest)
    decreases fs
  {
    hide NumBytes, ReadNum, ReadByte, Signed, Reads, DecKind, Skip, Fits, Meaning, Bytes, WellTyped, ReadFieldHeader,
      TypeCode, DecFields;
    match fs
    case NoField => LastField(s, r, rest);
    case Field(fid, value, more) =>
      var tail := FieldBytes(more) + rest;
      var after, h := Bytes(value) + tail, Header(TypeCode(value), fid);
      assert FieldBytes(fs) + rest == [TypeCode(value)] + (NumBytes(fid, 2) + after);
      FitsNotStop(if Reads(s, fid).Some? then Reads(s, fid).value else KBool, value);
      HeaderRoundTrip(value, fid, after);
      if Reads(s, fid).Some? {
        var v := Meaning(Reads(s, fid).value, Old(r, fid), value);
        Decodes(Reads(s, fid).value, Old(r, fid), value, tail);
        KnownField(s, r, FieldBytes(fs) + rest, h, after, v, tail);
        FieldsDecode(s, r[fid := v], more, rest);
      } else {
        SkipExactly(value, tail);
        UnknownField(s, r, FieldBytes(fs) + rest, h, after, tail);
        FieldsDecode(s, r, more, rest);
      }
  }

  lemma LastField(s: Name, r: Record, rest: seq<Byte>)
    ensures DecFields(s, r, FieldBytes(NoField) + rest) == Ok(r, rest)
  {
    StopRead(rest);
  }

  lemma StopRead(rest: seq<Byte>)
    ensures ReadFieldHeader(FieldBytes(NoField) + rest) == Ok(Header(STOP, 0), rest)
  {
    FirstByte(STOP, rest);
  }

  lemma {:induction false} ItemsDecode(elem: Name, done: seq<Value>, items: Items, rest: seq<Byte>)
    requires FitsItems(elem, items)
    ensures DecItems(elem, ItemCount(items), done, ItemBytes(items) + rest) == Ok(ItemsMeaning(elem, done, items), rest)
    decreases items
  {
    hide DecKind, Fits, Meaning, Bytes;
    match items
    case NoItem => assert ItemBytes(items) + rest == rest;
    case Item(value, more) =>
      assert ItemBytes(items) + rest == Bytes(value) + (ItemBytes(more) + rest);
      Decodes(KRec(elem, false), None, value, ItemBytes(more) + rest);
      ItemsDecode(elem, done + [Meaning(KRec(elem, false), None, value)], more, rest);
  }

  lemma NumDecodes(width: nat, t: Term, rest: seq<Byte>)
    requires IsNum(width, t)
    ensures ReadNum(Bytes(t) + rest, width) == Ok(NumOf(t), rest)
  {
    hide NumBytes, ReadNum, Signed;
    NumRoundTrip(t.n, width, rest);
  }

  lemma {:induction false} NumsDecode(width: nat, done: set<int>, items: Items, rest: seq<Byte>)
    requires FitsNums(width, items)
    ensures DecNums(width, ItemCount(items), done, ItemBytes(items) + rest) == Ok(NumsMeaning(done, items), rest)
    decreases items
  {
    hide ReadNum, Bytes, IsNum, NumOf;
    match items
    case NoItem => assert ItemBytes(items) + rest == rest;
    case Item(value, more) =>
      assert ItemBytes(items) + rest == Bytes(value) + (ItemBytes(more) + rest);
      NumDecodes(width, value, ItemBytes(more) + rest);
      NumsDecode(width, done + {NumOf(value)}, more, rest);
  }

  lemma OnePair(key: Name, val: Name, n: nat, done: seq<Pair>, b: seq<Byte>, k: Value, b1: seq<Byte>, v: Value,
                b2: seq<Byte>)
    requires n > 0 && DecKind(KRec(key, false), None, b) == Ok(k, b1)
    requires DecKind(KRec(val, false), None, b1) == Ok(v, b2)
    ensures DecPairs(key, val, n, done, b) == DecPairs(key, val, n - 1, done + [Pair(k, v)], b2)
  {
    hide DecKind;
  }

  lemma NoPair(key: Name, val: Name, done: seq<Pair>, b: seq<Byte>)
    ensures DecPairs(key, val, 0, done, b) == Ok(done, b)
  {
  }

  lemma {:induction false} PairsDecode(key: Name, val: Name, done: seq<Pair>, es: Entries, rest: seq<Byte>)
    requires FitsPairs(key, val, es)
    ensures DecPairs(key, val, EntryCount(es), done, EntryBytes(es) + rest) ==
              Ok(PairsMeaning(key, val, done, es), rest)
    decreases es
  {
    hide DecKind, Fits, Meaning, Bytes, DecPairs;
    match es
    case NoEntry =>
      assert EntryBytes(es) + rest == rest;
      NoPair(key, val, done, rest);
    case Entry(k, v, more) =>
      var after := EntryBytes(more) + rest;
      assert EntryBytes(es) + rest == Bytes(k) + (Bytes(v) + after);
      Decodes(KRec(key, false), None, k, Bytes(v) + after);
      Decodes(KRec(val, false), None, v, after);
      var mk, mv := Meaning(KRec(key, false), None, k), Meaning(KRec(val, false), None, v);
      OnePair(key, val, EntryCount(es), done, EntryBytes(es) + rest, mk, Bytes(v) + after, mv, after);
      PairsDecode(key, val, done + [Pair(mk, mv)], more, rest);
  }

  lemma {:induction false} EntriesDecode(width: nat, val: Name, done: map<int, Value>, es: Entries, rest: seq<Byte>)
    requires FitsEntries(width, val, es)
    ensures DecEntries(width, val, EntryCount(es), done, EntryBytes(es) + rest) ==
              Ok(EntriesMeaning(width, val, done, es), rest)
    decreases es
  {
    hide DecKind, Fits, Meaning, Bytes, ReadNum, IsNum, NumOf;
    match es
    case NoEntry => assert EntryBytes(es) + rest == rest;
    case Entry(k, v, more) =>
      var after := EntryBytes(more) + rest;
      assert EntryBytes(es) + rest == Bytes(k) + (Bytes(v) + after);
      NumDecodes(width, k, Bytes(v) + after);
      Decodes(KRec(val, false), None, v, after);
      EntriesDecode(width, val, done[NumOf(k) := Meaning(KRec(val, false), None, v)], more, rest);
  }
}
