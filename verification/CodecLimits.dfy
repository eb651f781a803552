/** Unknown fields do not matter; and how large a decoded packet can get. */
module CodecLimits {
  import opened RiftTypes
  import opened Wire
  import opened Schema
  import opened Codec
  import opened CodecRoundTrip

  // ---- Unknown fields are transparent ----

  /** The term without the fields the decoder does not know, in every struct it looks into. */
  function Strip(kind: Kind, t: Term): Term
    requires Fits(kind, t)
    decreases t
  {
    match kind
    case KRec(s, _) => TStruct(StripFields(s, t.fields))
    case KSeqOf(_, elem) => TList(t.tag, t.etype, StripItems(elem, t.items))
    case KPairs(key, val) => TMap(t.ktype, t.vtype, StripPairs(key, val, t.entries))
    case KMapOf(w, val, _) => TMap(t.ktype, t.vtype, StripEntries(w, val, t.entries))
    case _ => t
  }

  function StripFields(s: Name, fs: Fields): Fields
    requires FitsFields(s, fs)
    decreases fs
  {
    if fs.NoField? then NoField
    else if Reads(s, fs.fid).Some? then Field(fs.fid, Strip(Reads(s, fs.fid).value, fs.value), StripFields(s, fs.more))
    else StripFields(s, fs.more)
  }

  function StripItems(elem: Name, items: Items): Items
    requires FitsItems(elem, items)
    decreases items
  {
    if items.NoItem? then NoItem else Item(Strip(KRec(elem, false), items.value), StripItems(elem, items.more))
  }

  function StripPairs(key: Name, val: Name, es: Entries): Entries
    requires FitsPairs(key, val, es)
    decreases es
  {
    if es.NoEntry? then NoEntry
    else Entries.Entry(Strip(KRec(key, false), es.key), Strip(KRec(val, false), es.value),
      StripPairs(key, val, es.more))
  }

  function StripEntries(w: nat, val: Name, es: Entries): Entries
    requires FitsEntries(w, val, es)
    decreases es
  {
    if es.NoEntry? then NoEntry
      else Entries.Entry(es.key, Strip(KRec(val, false), es.value), StripEntries(w, val, es.more))
  }

  lemma {:induction false} StripKeepsMeaning(kind: Kind, prev: Option<Value>, t: Term)
    requires Fits(kind, t)
    ensures Fits(kind, Strip(kind, t)) && Meaning(kind, prev, Strip(kind, t)) == Meaning(kind, prev, t)
    decreases t
  {
    hide Reads, Init, Flat, FitsNums;
    match kind
    case KRec(s, inline) => StripKeepsFields(s, Into(s, inline, prev), t.fields);
    case KSeqOf(_, elem) => StripKeepsItems(elem, [], t.items);
    case KPairs(key, val) => StripKeepsPairs(key, val, [], t.entries, StripPairs(key, val, t.entries));
    case KMapOf(w, val, merge) => StripKeepsEntries(w, val, Onto(merge, prev), t.entries);
    case _ =>
  }

  lemma {:induction false} StripKeepsFields(s: Name, r: Record, fs: Fields)
    requires FitsFields(s, fs)
    ensures FitsFields(s, StripFields(s, fs)) && Interp(s, r, StripFields(s, fs)) == Interp(s, r, fs)
    decreases fs
  {
    hide Reads, Fits, Meaning, Strip, Signed, WellTyped;
    if fs.Field? {
      if Reads(s, fs.fid).Some? {
        var kind := Reads(s, fs.fid).value;
        StripKeepsMeaning(kind, Old(r, fs.fid), fs.value);
        StripKeepsFields(s, r[fs.fid := Meaning(kind, Old(r, fs.fid), fs.value)], fs.more);
      } else {
        StripKeepsFields(s, r, fs.more);
      }
    }
  }

  lemma {:induction false} StripKeepsItems(elem: Name, done: seq<Value>, items: Items)
    requires FitsItems(elem, items)
    ensures FitsItems(elem, StripItems(elem, items)) && ItemCount(StripItems(elem, items)) == ItemCount(items)
    ensures ItemsMeaning(elem, done, StripItems(elem, items)) == ItemsMeaning(elem, done, items)
    decreases items
  {
    hide Fits, Meaning, Strip;
    if items.Item? {
      StripKeepsMeaning(KRec(elem, false), None, items.value);
      StripKeepsItems(elem, done + [Meaning(KRec(elem, false), None, items.value)], items.more);
    }
  }

  predicate SamePairs(key: Name, val: Name, done: seq<Pair>, es: Entries, other: Entries)
    requires FitsPairs(key, val, es)
  {
    && FitsPairs(key, val, other) && EntryCount(other) == EntryCount(es)
    && PairsMeaning(key, val, done, other) == PairsMeaning(key, val, done, es)
  }

  predicate EntryMeans(key: Name, val: Name, k: Term, v: Term, p: Pair) {
    && Fits(KRec(key, false), k) && Meaning(KRec(key, false), None, k) == p.key
    && Fits(KRec(val, false), v) && Meaning(KRec(val, false), None, v) == p.value
  }

  lemma SamePairsStep(key: Name, val: Name, done: seq<Pair>, es: Entries, other: Entries, p: Pair)
    requires es.Entry? && FitsPairs(key, val, es.more) && other.Entry?
    requires SamePairs(key, val, done + [p], es.more, other.more)
    requires EntryMeans(key, val, es.key, es.value, p) && EntryMeans(key, val, other.key, other.value, p)
    ensures FitsPairs(key, val, es) && SamePairs(key, val, done, es, other)
  {
    hide Fits, Meaning, PairsMeaning, FitsPairs;
    PairStep(key, val, es, done, p);
    PairStep(key, val, other, done, p);
  }

  lemma StripMeans(key: Name, val: Name, es: Entries) returns (p: Pair)
    requires es.Entry? && Fits(KRec(key, false), es.key) && Fits(KRec(val, false), es.value)
    ensures EntryMeans(key, val, es.key, es.value, p)
    ensures EntryMeans(key, val, Strip(KRec(key, false), es.key), Strip(KRec(val, false), es.value), p)
    decreases es, 0
  {
    hide Fits, Meaning, Strip;
    StripKeepsMeaning(KRec(key, false), None, es.key);
    StripKeepsMeaning(KRec(val, false), None, es.value);
    p := Pair(Meaning(KRec(key, false), None, es.key), Meaning(KRec(val, false), None, es.value));
  }

  lemma FitsHead(key: Name, val: Name, es: Entries)
    requires FitsPairs(key, val, es) && es.Entry?
    ensures Fits(KRec(key, false), es.key) && Fits(KRec(val, false), es.value) && FitsPairs(key, val, es.more)
  {
    hide Fits;
  }

  lemma StripHead(key: Name, val: Name, es: Entries, stripped: Entries)
    requires es.Entry? && Fits(KRec(key, false), es.key) && Fits(KRec(val, false), es.value)
    requires FitsPairs(key, val, es.more)
    requires FitsPairs(key, val, es) && stripped == StripPairs(key, val, es)
    ensures stripped.Entry? && stripped.more == StripPairs(key, val, es.more)
    ensures stripped.key == Strip(KRec(key, false), es.key) && stripped.value == Strip(KRec(val, false), es.value)
  {
    hide Fits, Strip, FitsPairs;
  }

  lemma StripNone(key: Name, val: Name)
    requires FitsPairs(key, val, NoEntry)
    ensures StripPairs(key, val, NoEntry) == NoEntry
  {
    hide Fits, Strip, FitsPairs;
  }

  lemma SameItself(key: Name, val: Name, done: seq<Pair>, es: Entries)
    requires FitsPairs(key, val, es)
    ensures SamePairs(key, val, done, es, es)
  {
    hide FitsPairs, PairsMeaning;
  }

  lemma {:induction false} StripKeepsPairs(key: Name, val: Name, done: seq<Pair>, es: Entries, stripped: Entries)
    requires FitsPairs(key, val, es) && stripped == StripPairs(key, val, es)
    ensures SamePairs(key, val, done, es, stripped)
    decreases es, 1
  {
    hide Fits, Meaning, Strip, FitsPairs, StripPairs, PairsMeaning, SamePairs, EntryMeans;
    match es
    case NoEntry =>
      StripNone(key, val);
      SameItself(key, val, done, es);
    case Entry(_, _, more) =>
      FitsHead(key, val, es);
      StripHead(key, val, es, stripped);
      var p := StripMeans(key, val, es);
      StripKeepsPairs(key, val, done + [p], more, stripped.more);
      SamePairsStep(key, val, done, es, stripped, p);
  }

  lemma {:induction false} StripKeepsEntries(w: nat, val: Name, done: map<int, Value>, es: Entries)
    requires FitsEntries(w, val, es)
    ensures FitsEntries(w, val, StripEntries(w, val, es)) && EntryCount(StripEntries(w, val, es)) == EntryCount(es)
    ensures EntriesMeaning(w, val, done, StripEntries(w, val, es)) == EntriesMeaning(w, val, done, es)
    decreases es
  {
    hide Fits, Meaning, Strip, IsNum, NumOf;
    if es.Entry? {
      StripKeepsMeaning(KRec(val, false), None, es.value);
      StripKeepsEntries(w, val, done[NumOf(es.key) := Meaning(KRec(val, false), None, es.value)], es.more);
    }
  }

  /** Packets that differ only in unknown fields, anywhere and of any type, decode alike. */
  lemma UnknownFieldsTransparent(t: Term, u: Term, rest: seq<Byte>)
    requires Fits(KRec(ProtocolPacket, false), t) && Fits(KRec(ProtocolPacket, false), u)
    requires Strip(KRec(ProtocolPacket, false), t) == Strip(KRec(ProtocolPacket, false), u)
    ensures DecodePacket(Bytes(t) + rest).Ok? && DecodePacket(Bytes(t) + rest) == DecodePacket(Bytes(u) + rest)
  {
    hide Fits, Strip, Meaning;
    PacketDecodes(t, rest);
    PacketDecodes(u, rest);
    StripKeepsMeaning(KRec(ProtocolPacket, false), None, t);
    StripKeepsMeaning(KRec(ProtocolPacket, false), None, u);
  }

  lemma PacketDecodes(t: Term, rest: seq<Byte>)
    requires Fits(KRec(ProtocolPacket, false), t)
    ensures var m := Meaning(KRec(ProtocolPacket, false), None, t);
        m.VRec? && DecodePacket(Bytes(t) + rest) == Ok(m.fields, rest)
  {
    hide FitsFields, Interp, DecFields, FieldBytes;
    FieldsDecode(ProtocolPacket, Init(ProtocolPacket), t.fields, rest);
  }

  // ---- Sizes ----

  /**
   * Every collection and string within its cap; with exempt, but for the maps that several fields may be decoded into.
   */
  predicate Bounded(exempt: bool, kind: Kind, v: Value)
    decreases v
  {
    match kind
    case KBool => v.VBool?
    case KText => v.VText? && |v.bytes| <= MAX_STRING
    case KRec(s, _) =>
      v.VRec? && forall fid :: fid in v.fields && Reads(s, fid).Some? ==>
        Bounded(exempt, Reads(s, fid).value, v.fields[fid])
    case KSeqOf(_, elem) =>
      v.VSeq? && |v.items| <= MAX_COLLECTION && forall i :: 0 <= i < |v.items| ==>
        Bounded(exempt, KRec(elem, false), v.items[i])
    case KSetOf(_) => v.VSet? && |v.elems| <= MAX_COLLECTION
    case KPairs(key, val) =>
      v.VPairs? && |v.pairs| <= MAX_COLLECTION && forall i :: 0 <= i < |v.pairs| ==>
        PairBounded(exempt, key, val, v.pairs[i])
    case KMapOf(_, val, merge) =>
      && v.VMap? && ((exempt && merge) || |v.entries| <= MAX_COLLECTION)
      && forall k :: k in v.entries ==> Bounded(exempt, KRec(val, false), v.entries[k])
    case _ => v.VNum?
  }

  predicate PairBounded(exempt: bool, key: Name, val: Name, p: Pair)
    decreases p
  {
    Bounded(exempt, KRec(key, false), p.key) && Bounded(exempt, KRec(val, false), p.value)
  }

  predicate PrevBounded(kind: Kind, prev: Option<Value>) { prev.Some? ==> Bounded(true, kind, prev.value) }

  lemma InitBounded(s: Name)
    ensures Bounded(true, KRec(s, false), VRec(Init(s)))
  {
    if s != LIEMessage && s != PrefixAttributes && s != NodeTIEElement { assert Init(s) == map[]; }
  }

  lemma {:induction false} DecBounded(kind: Kind, prev: Option<Value>, b: seq<Byte>)
    requires DecKind(kind, prev, b).Ok? && PrevBounded(kind, prev)
    ensures Bounded(true, kind, DecKind(kind, prev, b).value)
    decreases |b|, 1
  {
    hide ReadNum, ReadByte, Reads, Init, ReadText;
    match kind
    case KRec(s, inline) =>
      InitBounded(s);
      FieldsBounded(s, Into(s, inline, prev), b);
    case KSeqOf(_, elem) => ItemsBounded(elem, ReadSeqHead(b).value, [], ReadSeqHead(b).rest);
    case KSetOf(w) => NumsBounded(w, ReadSeqHead(b).value, {}, ReadSeqHead(b).rest);
    case KPairs(key, val) => PairsBounded(key, val, ReadMapHead(b).value, [], ReadMapHead(b).rest);
    case KMapOf(w, val, merge) => EntriesBounded(w, val, ReadMapHead(b).value, Onto(merge, prev), ReadMapHead(b).rest);
    case _ =>
  }

  predicate RecordBounded(s: Name, r: Record) {
    forall fid :: fid in r && Reads(s, fid).Some? ==> Bounded(true, Reads(s, fid).value, r[fid])
  }

  lemma {:induction false} FieldsBounded(s: Name, r: Record, b: seq<Byte>)
    requires DecFields(s, r, b).Ok? && RecordBounded(s, r)
    ensures RecordBounded(s, DecFields(s, r, b).value)
    decreases |b|, 0
  {
    hide Reads, DecKind, Skip, ReadFieldHeader, Bounded;
    var h := ReadFieldHeader(b);
    if h.value.ftype != STOP {
      if Reads(s, h.value.fid).Some? {
        var kind := Reads(s, h.value.fid).value;
        var v := DecKind(kind, Old(r, h.value.fid), h.rest);
        DecBounded(kind, Old(r, h.value.fid), h.rest);
        FieldsBounded(s, r[h.value.fid := v.value], v.rest);
      } else {
        FieldsBounded(s, r, Skip(h.value.ftype, h.rest).rest);
      }
    }
  }

  lemma {:induction false} ItemsBounded(elem: Name, n: nat, done: seq<Value>, b: seq<Byte>)
    requires DecItems(elem, n, done, b).Ok? && forall i :: 0 <= i < |done| ==> Bounded(true, KRec(elem, false), done[i])
    ensures |DecItems(elem, n, done, b).value| == |done| + n
    ensures forall i :: 0 <= i < |done| + n ==> Bounded(true, KRec(elem, false), DecItems(elem, n, done, b).value[i])
    decreases |b|, 2
  {
    hide DecKind, Bounded;
    if n > 0 {
      var v := DecKind(KRec(elem, false), None, b);
      DecBounded(KRec(elem, false), None, b);
      ItemsBounded(elem, n - 1, done + [v.value], v.rest);
    }
  }

  lemma {:induction false} NumsBounded(w: nat, n: nat, done: set<int>, b: seq<Byte>)
    requires DecNums(w, n, done, b).Ok?
    ensures |DecNums(w, n, done, b).value| <= |done| + n
    decreases n
  {
    hide ReadNum;
    if n > 0 {
      var v := ReadNum(b, w);
      NumsBounded(w, n - 1, done + {v.value}, v.rest);
    }
  }

  predicate AllPairsBounded(key: Name, val: Name, ps: seq<Pair>) {
    forall i :: 0 <= i < |ps| ==> PairBounded(true, key, val, ps[i])
  }

  lemma OnePairMore(key: Name, val: Name, ps: seq<Pair>, k: Value, v: Value)
    requires AllPairsBounded(key, val, ps) && Bounded(true, KRec(key, false), k) && Bounded(true, KRec(val, false), v)
    ensures AllPairsBounded(key, val, ps + [Pair(k, v)])
  {
    hide Bounded;
  }

  lemma {:induction false} PairsBounded(key: Name, val: Name, n: nat, done: seq<Pair>, b: seq<Byte>)
    requires DecPairs(key, val, n, done, b).Ok? && AllPairsBounded(key, val, done)
    ensures |DecPairs(key, val, n, done, b).value| == |done| + n
    ensures AllPairsBounded(key, val, DecPairs(key, val, n, done, b).value)
    decreases |b|, 2
  {
    hide DecKind, Bounded, AllPairsBounded;
    if n > 0 {
      var k := DecKind(KRec(key, false), None, b);
      var v := DecKind(KRec(val, false), None, k.rest);
      DecBounded(KRec(key, false), None, b);
      DecBounded(KRec(val, false), None, k.rest);
      OnePairMore(key, val, done, k.value, v.value);
      PairsBounded(key, val, n - 1, done + [Pair(k.value, v.value)], v.rest);
    }
  }

  lemma {:induction false} EntriesBounded(w: nat, val: Name, n: nat, done: map<int, Value>, b: seq<Byte>)
    requires DecEntries(w, val, n, done, b).Ok? && forall k :: k in done ==> Bounded(true, KRec(val, false), done[k])
    ensures |DecEntries(w, val, n, done, b).value| <= |done| + n
    ensures forall k :: k in DecEntries(w, val, n, done, b).value ==>
              Bounded(true, KRec(val, false), DecEntries(w, val, n, done, b).value[k])
    decreases |b|, 3, n
  {
    hide DecKind, Bounded, ReadNum;
    if n > 0 {
      var k := ReadNum(b, w);
      var v := DecKind(KRec(val, false), None, k.rest);
      DecBounded(KRec(val, false), None, k.rest);
      EntriesBounded(w, val, n - 1, done[k.value := v.value], v.rest);
    }
  }

  /**
   * On arbitrary bytes: an error, or a packet with every collection and string within its cap but for the neighbour
   * maps of Node TIEs.
   */
  lemma PacketBounded(b: seq<Byte>)
    requires DecodePacket(b).Ok?
    ensures Bounded(true, KRec(ProtocolPacket, false), VRec(DecodePacket(b).value)) && |DecodePacket(b).rest| < |b|
  {
    hide Bounded, Reads;
    FieldsBounded(ProtocolPacket, Init(ProtocolPacket), b);
    RecordIsBounded(ProtocolPacket, DecodePacket(b).value);
  }

  lemma RecordIsBounded(s: Name, r: Record)
    requires RecordBounded(s, r)
    ensures Bounded(true, KRec(s, false), VRec(r))
  {
    hide Reads;
  }

  // ---- Neighbour maps ----

  // The structs through which a packet holds its one neighbour map, and the field each reaches the next by.
  predicate OnPath(s: Name) {
    s == ProtocolPacket || s == PacketContent || s == TIEMessage || s == TIEElement || s == NodeTIEElement
  }

  function PathField(s: Name): int
    requires OnPath(s)
  {
    match s
    case PacketContent => 4
    case TIEElement => 1
    case _ => 2
  }

  function PathNext(s: Name): Name
    requires OnPath(s) && s != NodeTIEElement
  {
    match s
    case ProtocolPacket => PacketContent
    case PacketContent => TIEMessage
    case TIEMessage => TIEElement
    case _ => NodeTIEElement
  }

  function PathLength(s: Name): nat
    requires OnPath(s)
  {
    match s
    case ProtocolPacket => 4
    case PacketContent => 3
    case TIEMessage => 2
    case TIEElement => 1
    case _ => 0
  }

  predicate PathKind(kind: Kind) { (kind.KRec? && OnPath(kind.name)) || (kind.KMapOf? && kind.merge) }

  /** Only the neighbour map is built upon, and it and the structs above it are reached by no other field. */
  lemma OnlyNeighboursMerge(s: Name, fid: int)
    requires Reads(s, fid).Some?
    ensures PathKind(Reads(s, fid).value) <==> OnPath(s) && fid == PathField(s)
    ensures !PathKind(Reads(s, fid).value) ==> OffPath(Reads(s, fid).value)
  {
  }

  /** No neighbour map in it. */
  predicate OffPath(kind: Kind) {
    match kind
    case KRec(s, _) => !OnPath(s)
    case KSeqOf(_, elem) => !OnPath(elem)
    case KPairs(key, val) => !OnPath(key) && !OnPath(val)
    case KMapOf(_, val, merge) => !merge && !OnPath(val)
    case _ => true
  }

  /** The identities a record of the path holds neighbours for. */
  function HeldKeys(s: Name, r: Record): set<int>
    requires OnPath(s)
    decreases PathLength(s)
  {
    if PathField(s) !in r then {}
    else match r[PathField(s)]
      case VMap(entries) => if s == NodeTIEElement then entries.Keys else {}
      case VRec(fields) => if s == NodeTIEElement then {} else HeldKeys(PathNext(s), fields)
      case _ => {}
  }

  /** The keys of n entries, read from the bytes. */
  function KeysRead(w: nat, val: Name, n: nat, b: seq<Byte>): set<int>
    decreases n
  {
    if n == 0 then {}
    else
      var k := ReadNum(b, w);
      if k.Err? then {} else
      var v := DecKind(KRec(val, false), None, k.rest);
      {k.value} + if v.Err? then {} else KeysRead(w, val, n - 1, v.rest)
  }

  /**
   * The identities announced by the bytes of a struct of the path, keys being those announced before. A field decoded
   * into a fresh struct forgets them, each neighbour field adds its own. No record is needed to read this off the
   * bytes.
   */
  function Announced(s: Name, keys: set<int>, b: seq<Byte>): set<int>
    requires OnPath(s)
    decreases |b|, 0
  {
    var h := ReadFieldHeader(b);
    if h.Err? || h.value.ftype == STOP then keys
    else match Reads(s, h.value.fid)
      case Some(kind) =>
        var v := DecKind(kind, None, h.rest);
        var more := AnnouncedBy(kind, keys, h.rest);
        if v.Err? then more else Announced(s, more, v.rest)
      case None =>
        var v := Skip(h.value.ftype, h.rest);
        if v.Err? then keys else Announced(s, keys, v.rest)
  }

  function AnnouncedBy(kind: Kind, keys: set<int>, b: seq<Byte>): set<int>
    decreases |b|, 1
  {
    match kind
    case KRec(s, inline) => if OnPath(s) then Announced(s, if inline then keys else {}, b) else keys
    case KMapOf(w, val, merge) =>
      var n := ReadMapHead(b);
      if merge && n.Ok? then keys + KeysRead(w, val, n.value, n.rest) else keys
    case _ => keys
  }

  /** What a value is decoded onto changes neither whether it decodes nor how many bytes it takes. */
  lemma {:induction false} SameBytes(kind: Kind, prev: Option<Value>, b: seq<Byte>)
    ensures DecKind(kind, prev, b).Ok? <==> DecKind(kind, None, b).Ok?
    ensures DecKind(kind, prev, b).Ok? ==> DecKind(kind, prev, b).rest == DecKind(kind, None, b).rest
    decreases |b|, 1
  {
    hide ReadNum, ReadByte, Reads, Init, ReadText;
    match kind
    case KRec(s, inline) => SameFieldBytes(s, Into(s, inline, prev), Init(s), b);
    case KMapOf(w, val, merge) =>
      var n := ReadMapHead(b);
      if n.Ok? { SameEntryBytes(w, val, n.value, Onto(merge, prev), map[], n.rest); }
    case _ =>
  }

  lemma {:induction false} SameFieldBytes(s: Name, r: Record, q: Record, b: seq<Byte>)
    ensures DecFields(s, r, b).Ok? <==> DecFields(s, q, b).Ok?
    ensures DecFields(s, r, b).Ok? ==> DecFields(s, r, b).rest == DecFields(s, q, b).rest
    decreases |b|, 0
  {
    hide Reads, DecKind, Skip, ReadFieldHeader, Old;
    var h := ReadFieldHeader(b);
    if h.Ok? && h.value.ftype != STOP {
      var fid := h.value.fid;
      if Reads(s, fid).Some? {
        var kind := Reads(s, fid).value;
        SameBytes(kind, Old(r, fid), h.rest);
        SameBytes(kind, Old(q, fid), h.rest);
        var v, w := DecKind(kind, Old(r, fid), h.rest), DecKind(kind, Old(q, fid), h.rest);
        if v.Ok? { SameFieldBytes(s, r[fid := v.value], q[fid := w.value], v.rest); }
      } else {
        var v := Skip(h.value.ftype, h.rest);
        if v.Ok? { SameFieldBytes(s, r, q, v.rest); }
      }
    }
  }

  lemma {:induction false} SameEntryBytes(w: nat, val: Name, n: nat, done: map<int, Value>, start: map<int, Value>,
                                          b: seq<Byte>)
    ensures DecEntries(w, val, n, done, b).Ok? <==> DecEntries(w, val, n, start, b).Ok?
    ensures DecEntries(w, val, n, done, b).Ok? ==>
              DecEntries(w, val, n, done, b).rest == DecEntries(w, val, n, start, b).rest
    decreases n
  {
    hide DecKind, ReadNum;
    if n > 0 {
      var k := ReadNum(b, w);
      if k.Ok? {
        var v := DecKind(KRec(val, false), None, k.rest);
        if v.Ok? { SameEntryBytes(w, val, n - 1, done[k.value := v.value], start[k.value := v.value], v.rest); }
      }
    }
  }

  lemma {:induction false} EntryKeys(w: nat, val: Name, n: nat, done: map<int, Value>, b: seq<Byte>)
    requires DecEntries(w, val, n, done, b).Ok?
    ensures DecEntries(w, val, n, done, b).value.Keys == done.Keys + KeysRead(w, val, n, b)
    decreases n
  {
    hide DecKind, ReadNum;
    if n > 0 {
      var k := ReadNum(b, w);
      var v := DecKind(KRec(val, false), None, k.rest);
      EntryKeys(w, val, n - 1, done[k.value := v.value], v.rest);
    }
  }

  /** The neighbours a struct of the path ends up with are exactly those it held and those announced. */
  lemma {:induction false} KeysTracked(s: Name, r: Record, b: seq<Byte>)
    requires OnPath(s) && DecFields(s, r, b).Ok?
    ensures HeldKeys(s, DecFields(s, r, b).value) == Announced(s, HeldKeys(s, r), b)
    decreases |b|, 0
  {
    hide Reads, DecKind, Skip, ReadFieldHeader, HeldKeys, AnnouncedBy;
    var h := ReadFieldHeader(b);
    if h.value.ftype != STOP {
      var fid := h.value.fid;
      if Reads(s, fid).Some? {
        var kind := Reads(s, fid).value;
        var v := DecKind(kind, Old(r, fid), h.rest);
        SameBytes(kind, Old(r, fid), h.rest);
        FieldTracked(s, fid, r, h.rest);
        KeysTracked(s, r[fid := v.value], v.rest);
      } else {
        KeysTracked(s, r, Skip(h.value.ftype, h.rest).rest);
      }
    }
  }

  lemma {:induction false} FieldTracked(s: Name, fid: int, r: Record, b: seq<Byte>)
    requires OnPath(s) && Reads(s, fid).Some? && DecKind(Reads(s, fid).value, Old(r, fid), b).Ok?
    ensures HeldKeys(s, r[fid := DecKind(Reads(s, fid).value, Old(r, fid), b).value]) ==
              AnnouncedBy(Reads(s, fid).value, HeldKeys(s, r), b)
    decreases |b|, 1
  {
    hide Reads, DecFields, DecKind, AnnouncedBy, Announced, Init;
    OnlyNeighboursMerge(s, fid);
    var kind := Reads(s, fid).value;
    if PathKind(kind) {
      PathRead(s);
      if s == NodeTIEElement {
        assert kind == KMapOf(8, NodeNeighbors, true);
        MapTracked(8, NodeNeighbors, Old(r, fid), b);
        assert HeldKeys(s, r) == Onto(true, Old(r, fid)).Keys;
      } else {
        InitHolds(kind.name);
        RecDecodes(kind, Old(r, fid), b);
        KeysTracked(kind.name, Into(kind.name, kind.inline, Old(r, fid)), b);
      }
    } else {
      NothingAnnounced(kind, HeldKeys(s, r), b);
    }
  }

  lemma MapTracked(w: nat, val: Name, prev: Option<Value>, b: seq<Byte>)
    requires DecKind(KMapOf(w, val, true), prev, b).Ok?
    ensures var v := DecKind(KMapOf(w, val, true), prev, b).value;
            v.VMap? && v.entries.Keys == AnnouncedBy(KMapOf(w, val, true), Onto(true, prev).Keys, b)
  {
    hide DecEntries, ReadMapHead, KeysRead;
    EntryKeys(w, val, ReadMapHead(b).value, Onto(true, prev), ReadMapHead(b).rest);
  }

  lemma RecDecodes(kind: Kind, prev: Option<Value>, b: seq<Byte>)
    requires kind.KRec? && DecKind(kind, prev, b).Ok?
    ensures var x := DecFields(kind.name, Into(kind.name, kind.inline, prev), b);
            x.Ok? && DecKind(kind, prev, b).value == VRec(x.value)
    ensures OnPath(kind.name) ==>
              forall keys :: AnnouncedBy(kind, keys, b) == Announced(kind.name, if kind.inline then keys else {}, b)
  {
    hide DecFields, Announced;
  }

  lemma NothingAnnounced(kind: Kind, keys: set<int>, b: seq<Byte>)
    requires !PathKind(kind)
    ensures AnnouncedBy(kind, keys, b) == keys
  {
  }

  lemma InitHolds(s: Name)
    requires OnPath(s)
    ensures HeldKeys(s, Init(s)) == {}
  {
  }

  // ---- The cap, exactly ----

  lemma {:induction false} OffPathStrict(kind: Kind, v: Value)
    requires OffPath(kind) && Bounded(true, kind, v)
    ensures Bounded(false, kind, v)
    decreases v
  {
    hide Reads;
    match kind
    case KRec(s, _) =>
      forall fid | fid in v.fields && Reads(s, fid).Some? ensures Bounded(false, Reads(s, fid).value, v.fields[fid]) {
        OnlyNeighboursMerge(s, fid);
        OffPathStrict(Reads(s, fid).value, v.fields[fid]);
      }
    case KSeqOf(_, elem) =>
      forall i | 0 <= i < |v.items|
        ensures Bounded(false, KRec(elem, false), v.items[i])
      {
        OffPathStrict(KRec(elem, false), v.items[i]);
      }
    case KPairs(key, val) =>
      forall i | 0 <= i < |v.pairs| ensures PairBounded(false, key, val, v.pairs[i]) {
        OffPathStrict(KRec(key, false), v.pairs[i].key);
        OffPathStrict(KRec(val, false), v.pairs[i].value);
      }
    case KMapOf(_, val, _) =>
      forall k | k in v.entries
        ensures Bounded(false, KRec(val, false), v.entries[k])
      {
        OffPathStrict(KRec(val, false), v.entries[k]);
      }
    case _ =>
  }

  /** Within all other caps, a record of the path is within this one exactly when its neighbours are. */
  lemma {:induction false} StrictExactly(s: Name, inline: bool, r: Record)
    requires OnPath(s) && Bounded(true, KRec(s, inline), VRec(r))
    ensures Bounded(false, KRec(s, inline), VRec(r)) <==> |HeldKeys(s, r)| <= MAX_COLLECTION
    decreases PathLength(s), 1
  {
    hide Reads;
    PathRead(s);
    forall fid | fid in r && Reads(s, fid).Some? && fid != PathField(s)
      ensures Bounded(false, Reads(s, fid).value, r[fid])
    {
      OnlyNeighboursMerge(s, fid);
      OffPathStrict(Reads(s, fid).value, r[fid]);
    }
    if PathField(s) in r {
      PathStrict(s, r);
    }
  }

  lemma PathRead(s: Name)
    requires OnPath(s)
    ensures Reads(s, PathField(s)).Some? && PathKind(Reads(s, PathField(s)).value)
    ensures s == NodeTIEElement ==> Reads(s, PathField(s)).value == KMapOf(8, NodeNeighbors, true)
    ensures s != NodeTIEElement ==>
              Reads(s, PathField(s)).value.KRec? && Reads(s, PathField(s)).value.name == PathNext(s)
  {
  }

  lemma {:induction false} PathStrict(s: Name, r: Record)
    requires OnPath(s) && PathField(s) in r && Reads(s, PathField(s)).Some?
    requires Bounded(true, Reads(s, PathField(s)).value, r[PathField(s)])
    ensures Bounded(false, Reads(s, PathField(s)).value, r[PathField(s)]) <==> |HeldKeys(s, r)| <= MAX_COLLECTION
    decreases PathLength(s), 0
  {
    hide Reads;
    PathRead(s);
    var v := r[PathField(s)];
    if s == NodeTIEElement {
      forall k | k in v.entries ensures Bounded(false, KRec(NodeNeighbors, false), v.entries[k]) {
        OffPathStrict(KRec(NodeNeighbors, false), v.entries[k]);
      }
      assert |v.entries| == |v.entries.Keys|;
    } else {
      var kind := Reads(s, PathField(s)).value;
      StrictExactly(kind.name, kind.inline, v.fields);
    }
  }

  /**
   * On arbitrary bytes that decode: the packet holds neighbours for exactly the identities the bytes announce, and
   * every collection in it is within 10000 and every string within 1 MiB if and only if those identities are at most
   * 10000.
   */
  lemma CapExactly(b: seq<Byte>)
    requires DecodePacket(b).Ok?
    ensures HeldKeys(ProtocolPacket, DecodePacket(b).value) == Announced(ProtocolPacket, {}, b)
    ensures Bounded(false, KRec(ProtocolPacket, false), VRec(DecodePacket(b).value)) <==>
              |Announced(ProtocolPacket, {}, b)| <= MAX_COLLECTION
  {
    hide Bounded, Reads, HeldKeys, Announced;
    PacketBounded(b);
    InitHolds(ProtocolPacket);
    KeysTracked(ProtocolPacket, Init(ProtocolPacket), b);
    StrictExactly(ProtocolPacket, false, DecodePacket(b).value);
  }

  function NeighbourCount(r: Record): nat { |HeldKeys(NodeTIEElement, r)| }

  /** How many neighbour fields the decoder meets in a Node TIE. */
  function NeighbourFields(b: seq<Byte>): nat
    decreases |b|
  {
    var h := ReadFieldHeader(b);
    if h.Err? || h.value.ftype == STOP then 0
    else match Reads(NodeTIEElement, h.value.fid)
      case Some(kind) =>
        var v := DecKind(kind, None, h.rest);
        if v.Err? then 0 else (if h.value.fid == 2 then 1 else 0) + NeighbourFields(v.rest)
      case None =>
        var v := Skip(h.value.ftype, h.rest);
        if v.Err? then 0 else NeighbourFields(v.rest)
  }

  lemma {:induction false} FewKeys(w: nat, val: Name, n: nat, b: seq<Byte>)
    ensures |KeysRead(w, val, n, b)| <= n
    decreases n
  {
    hide DecKind, ReadNum;
    if n > 0 {
      var k := ReadNum(b, w);
      if k.Ok? {
        var v := DecKind(KRec(val, false), None, k.rest);
        if v.Ok? { FewKeys(w, val, n - 1, v.rest); }
      }
    }
  }

  lemma FieldFew(fid: int, keys: set<int>, b: seq<Byte>)
    requires Reads(NodeTIEElement, fid).Some?
    ensures |AnnouncedBy(Reads(NodeTIEElement, fid).value, keys, b)| <= |keys| + if fid == 2 then MAX_COLLECTION else 0
  {
    hide Reads, Announced, KeysRead, ReadNum, ReadByte;
    OnlyNeighboursMerge(NodeTIEElement, fid);
    PathRead(NodeTIEElement);
    var n := ReadMapHead(b);
    if fid == 2 && n.Ok? {
      FewKeys(8, NodeNeighbors, n.value, n.rest);
    }
  }

  lemma {:induction false} AnnouncedFew(keys: set<int>, b: seq<Byte>)
    requires DecFields(NodeTIEElement, map[], b).Ok?
    ensures |Announced(NodeTIEElement, keys, b)| <= |keys| + MAX_COLLECTION * NeighbourFields(b)
    decreases |b|
  {
    hide DecKind, Skip, ReadFieldHeader, Reads, AnnouncedBy;
    var h := ReadFieldHeader(b);
    if h.value.ftype != STOP {
      var fid := h.value.fid;
      if Reads(NodeTIEElement, fid).Some? {
        var kind := Reads(NodeTIEElement, fid).value;
        var v := DecKind(kind, None, h.rest);
        FieldFew(fid, keys, h.rest);
        SameFieldBytes(NodeTIEElement, map[fid := v.value], map[], v.rest);
        AnnouncedFew(AnnouncedBy(kind, keys, h.rest), v.rest);
      } else {
        AnnouncedFew(keys, Skip(h.value.ftype, h.rest).rest);
      }
    }
  }

  /**
   * A Node TIE decodes to a neighbour for exactly each identity announced, which keeps it within the cap if and only if
   * these are at most 10000; with n neighbour fields they are at most 10000 n.
   */
  lemma NeighboursBounded(r: Record, b: seq<Byte>)
    requires DecFields(NodeTIEElement, r, b).Ok?
    ensures var keys := Announced(NodeTIEElement, HeldKeys(NodeTIEElement, r), b);
            && HeldKeys(NodeTIEElement, DecFields(NodeTIEElement, r, b).value) == keys
            && (NeighbourCount(DecFields(NodeTIEElement, r, b).value) <= MAX_COLLECTION <==> |keys| <= MAX_COLLECTION)
    ensures NeighbourCount(DecFields(NodeTIEElement, r, b).value) <= NeighbourCount(r) +
      MAX_COLLECTION * NeighbourFields(b)
  {
    hide DecFields, Announced, HeldKeys, NeighbourFields;
    KeysTracked(NodeTIEElement, r, b);
    SameFieldBytes(NodeTIEElement, r, map[], b);
    AnnouncedFew(HeldKeys(NodeTIEElement, r), b);
  }

  // ---- Two neighbour fields can exceed the cap ----

  /** n neighbours with consecutive identities from a. */
  function Consecutive(a: int, n: nat): (es: Entries)
    ensures EntryCount(es) == n
    decreases n
  {
    if n == 0 then NoEntry else Entries.Entry(TI64(a), TStruct(NoField), Consecutive(a + 1, n - 1))
  }

  lemma {:induction false} ConsecutiveFits(a: int, n: nat, done: map<int, Value>)
    requires 0 <= a && a + n < 0x1_0000_0000 && forall k :: k in done ==> k < a
    ensures FitsEntries(8, NodeNeighbors, Consecutive(a, n))
    ensures |EntriesMeaning(8, NodeNeighbors, done, Consecutive(a, n))| == |done| + n
    ensures forall k :: k in EntriesMeaning(8, NodeNeighbors, done, Consecutive(a, n)) ==> k < a + n
    decreases n
  {
    hide Reads;
    Widths();
    if n > 0 {
      var v := Meaning(KRec(NodeNeighbors, false), None, TStruct(NoField));
      ConsecutiveFits(a + 1, n - 1, done[a := v]);
    }
  }

  function TwoFields(): Fields {
    Field(2, TMap(I64, STRUCT, Consecutive(0, MAX_COLLECTION)),
          Field(2, TMap(I64, STRUCT, Consecutive(MAX_COLLECTION, MAX_COLLECTION)), NoField))
  }

  /** A packet around the fields of a Node TIE. */
  function Around(node: Fields): Term {
    TStruct(Field(2, TStruct(Field(4, TStruct(Field(2, TStruct(Field(1, TStruct(node), NoField)), NoField)), NoField)),
      NoField))
  }

  /** The cap on collections does not hold of neighbour maps: these bytes decode to a packet with 20000 neighbours. */
  lemma CapExceeded() returns (packet: Record)
    ensures DecodePacket(Bytes(Around(TwoFields()))) == Ok(packet, [])
    ensures |HeldKeys(ProtocolPacket, packet)| == 2 * MAX_COLLECTION
    ensures !Bounded(false, KRec(ProtocolPacket, false), VRec(packet))
  {
    hide Around, Bounded, HeldKeys, Fits, Meaning, Announced, DecodePacket, Bytes, TwoFields;
    var t := Around(TwoFields());
    TwoFieldsFit();
    AroundMeans(TwoFields());
    PacketDecodes(t, []);
    assert Bytes(t) + [] == Bytes(t);
    packet := Meaning(KRec(ProtocolPacket, false), None, t).fields;
    TwentyThousand();
    CapExactly(Bytes(t));
  }

  lemma OneLevel(s: Name, fs: Fields)
    requires OnPath(s) && s != NodeTIEElement && FitsFields(PathNext(s), fs)
    ensures var outer := Field(PathField(s), TStruct(fs), NoField);
            && FitsFields(s, outer)
            && HeldKeys(s, Interp(s, Init(s), outer)) == HeldKeys(PathNext(s),
              Interp(PathNext(s), Init(PathNext(s)), fs))
  {
    hide Reads, Interp;
    PathRead(s);
    Widths();
    var next := Interp(PathNext(s), Init(PathNext(s)), fs);
    OneField(s, fs);
    hide FitsFields, Init;
    assert map[PathField(s) := VRec(next)][PathField(s)] == VRec(next);
  }

  lemma OneField(s: Name, fs: Fields)
    requires OnPath(s) && s != NodeTIEElement && FitsFields(PathNext(s), fs)
    requires FitsFields(s, Field(PathField(s), TStruct(fs), NoField))
    ensures Interp(s, Init(s), Field(PathField(s), TStruct(fs), NoField)) ==
            map[PathField(s) := VRec(Interp(PathNext(s), Init(PathNext(s)), fs))]
  {
    hide Reads, FitsFields;
    PathRead(s);
    assert Init(s) == map[];
    var kind := Reads(s, PathField(s)).value;
    assert Meaning(kind, None, TStruct(fs)) == VRec(Interp(PathNext(s), Init(PathNext(s)), fs));
  }

  lemma AroundMeans(node: Fields)
    requires FitsFields(NodeTIEElement, node)
    ensures Fits(KRec(ProtocolPacket, false), Around(node))
    ensures var m := Meaning(KRec(ProtocolPacket, false), None, Around(node));
            m.VRec? && HeldKeys(ProtocolPacket, m.fields) == HeldKeys(NodeTIEElement,
              Interp(NodeTIEElement, Init(NodeTIEElement), node))
  {
    hide FitsFields, Interp, HeldKeys, Init;
    OneLevel(TIEElement, node);
    OneLevel(TIEMessage, Field(1, TStruct(node), NoField));
    OneLevel(PacketContent, Field(2, TStruct(Field(1, TStruct(node), NoField)), NoField));
    OneLevel(ProtocolPacket, Field(4, TStruct(Field(2, TStruct(Field(1, TStruct(node), NoField)), NoField)), NoField));
  }

  lemma TwentyThousand()
    requires FitsFields(NodeTIEElement, TwoFields())
    ensures |HeldKeys(NodeTIEElement, Interp(NodeTIEElement, Init(NodeTIEElement), TwoFields()))| == 2 * MAX_COLLECTION
  {
    hide Consecutive, EntriesMeaning, FitsEntries, Signed;
    var first := Consecutive(0, MAX_COLLECTION);
    ConsecutiveFits(0, MAX_COLLECTION, map[]);
    var m1 := EntriesMeaning(8, NodeNeighbors, map[], first);
    var second := Consecutive(MAX_COLLECTION, MAX_COLLECTION);
    ConsecutiveFits(MAX_COLLECTION, MAX_COLLECTION, m1);
    TwoFieldsMean(m1, EntriesMeaning(8, NodeNeighbors, m1, second));
  }

  lemma TwoFieldsFit()
    ensures FitsFields(NodeTIEElement, TwoFields())
  {
    hide Consecutive, FitsEntries;
    Widths();
    ConsecutiveFits(0, MAX_COLLECTION, map[]);
    ConsecutiveFits(MAX_COLLECTION, MAX_COLLECTION, map[]);
  }

  lemma TwoFieldsMean(m1: map<int, Value>, m2: map<int, Value>)
    requires FitsFields(NodeTIEElement, TwoFields())
    requires FitsEntries(8, NodeNeighbors, Consecutive(0, MAX_COLLECTION))
    requires m1 == EntriesMeaning(8, NodeNeighbors, map[], Consecutive(0, MAX_COLLECTION))
    requires FitsEntries(8, NodeNeighbors, Consecutive(MAX_COLLECTION, MAX_COLLECTION))
    requires m2 == EntriesMeaning(8, NodeNeighbors, m1, Consecutive(MAX_COLLECTION, MAX_COLLECTION))
    ensures HeldKeys(NodeTIEElement, Interp(NodeTIEElement, Init(NodeTIEElement), TwoFields())) == m2.Keys
    ensures |m2.Keys| == |m2|
  {
    hide Consecutive, FitsEntries, EntriesMeaning, Signed;
  }
}
