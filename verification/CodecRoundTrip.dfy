/**
 * What the codec is for: decoding undoes encoding in any order, unknown fields do not matter, and sizes stay bounded.
 */
module CodecRoundTrip {
  import opened RiftTypes
  import opened Wire
  import opened Schema
  import opened Codec

  // ---- Well-formed packets ----

  predicate NonEmpty(v: Value) {
    match v
    case VText(bytes) => bytes != []
    case VSeq(items) => items != []
    case VSet(elems) => elems != {}
    case VPairs(pairs) => pairs != []
    case VMap(entries) => entries != map[]
    case _ => true
  }

  predicate Width(w: nat) { w == 4 || w == 8 }

  /**
   * One variant set where one is needed, collections of at most 10000, strings of at most 1 MiB, numbers in range,
   * required fields present.
   */
  ghost predicate Conforms(kind: Kind, v: Value)
    decreases v
  {
    match kind
    case KBool => v.VBool?
    case KByte => v.VNum? && Signed(v.n, 1)
    case KI16 => v.VNum? && Signed(v.n, 2)
    case KI32 => v.VNum? && Signed(v.n, 4)
    case KI64 => v.VNum? && Signed(v.n, 8)
    case KText => v.VText? && |v.bytes| <= MAX_STRING
    case KRec(s, _) =>
      && v.VRec? && Complete(s, v.fields)
      && forall fid :: fid in v.fields ==> Reads(s, fid).Some? && Conforms(Reads(s, fid).value, v.fields[fid])
    case KSeqOf(tag, elem) =>
      && (tag == SET || tag == LIST) && v.VSeq? && |v.items| <= MAX_COLLECTION
      && forall i :: 0 <= i < |v.items| ==> Conforms(KRec(elem, false), v.items[i])
    case KSetOf(w) => v.VSet? && |v.elems| <= MAX_COLLECTION && Width(w) && forall n :: n in v.elems ==> Signed(n, w)
    case KPairs(key, val) =>
      && v.VPairs? && |v.pairs| <= MAX_COLLECTION
      && forall i :: 0 <= i < |v.pairs| ==>
        Conforms(KRec(key, false), v.pairs[i].key) && Conforms(KRec(val, false), v.pairs[i].value)
    case KMapOf(w, val, _) =>
      && v.VMap? && |v.entries| <= MAX_COLLECTION && Width(w)
      && forall k :: k in v.entries ==> Signed(k, w) && Conforms(KRec(val, false), v.entries[k])
  }

  /** The fields set are those the encoder knows, with nothing required missing and no optional one set but empty. */
  ghost predicate Complete(s: Name, fields: Record) {
    && (forall fid :: fid in fields ==> exists i :: 0 <= i < |Writes(s)| && Writes(s)[i].fid == fid)
    && (forall i :: 0 <= i < |Writes(s)| && Writes(s)[i].when == Always ==> Writes(s)[i].fid in fields)
    && (forall i :: 0 <= i < |Writes(s)| && Writes(s)[i].fid in fields ==> Emitted(Writes(s)[i], fields))
    && (IsUnion(s) ==> |fields| <= 1) && (NeedsVariant(s) ==> |fields| == 1)
  }

  // ---- What the encoder writes ----

  predicate Emitted(o: Out, fields: Record) { o.fid in fields && (o.when == IfNonEmpty ==> NonEmpty(fields[o.fid])) }

  /** A field is written if it is set and, where emptiness counts as unset, not empty. */
  lemma WrittenWhen(o: Out, fields: Record)
    ensures Emitted(o, fields) <==>
              && o.fid in fields
              && (o.when == IfNonEmpty ==> fields[o.fid] != VText([]) && fields[o.fid] != VSeq([])
                                           && fields[o.fid] != VSet({}) && fields[o.fid] != VPairs([])
                                           && fields[o.fid] != VMap(map[]))
  {
  }

  /** The elements of a set or the keys of a map in some order, each once. */
  ghost predicate Lists(order: seq<int>, s: set<int>) { Elements(order) == s && |order| == |s| }

  function NumTerm(w: nat, n: int): Term { if w == 4 then TI32(n) else TI64(n) }

  function NumType(w: nat): Byte { if w == 4 then I32 else I64 }

  /** t is what the encoder may write for v: fields in the encoder's order, sets and maps in any order. */
  ghost predicate Encodes(kind: Kind, v: Value, t: Term)
    decreases t, 0
  {
    match kind
    case KBool => v.VBool? && t == TBool(if v.b then 1 else 0)
    case KByte => v.VNum? && t == TByte(v.n)
    case KI16 => v.VNum? && t == TI16(v.n)
    case KI32 => v.VNum? && t == TI32(v.n)
    case KI64 => v.VNum? && t == TI64(v.n)
    case KText => v.VText? && t == TText(v.bytes)
    case KRec(s, _) =>
      && v.VRec? && t.TStruct?
      && if IsUnion(s) then EncodesVariant(Writes(s), v.fields, t.fields)
        else EncodesFields(Writes(s), v.fields, t.fields)
    case KSeqOf(tag, elem) =>
      v.VSeq? && t.TList? && t.tag == tag && t.etype == STRUCT && EncodesItems(elem, v.items, t.items)
    case KSetOf(w) =>
      && v.VSet? && t.TList? && t.tag == SET && t.etype == NumType(w)
      && exists order :: Lists(order, v.elems) && EncodesNums(w, order, t.items)
    case KPairs(key, val) =>
      v.VPairs? && t.TMap? && t.ktype == STRUCT && t.vtype == STRUCT && EncodesPairs(key, val, v.pairs, t.entries)
    case KMapOf(w, val, _) =>
      && v.VMap? && t.TMap? && t.ktype == NumType(w) && t.vtype == STRUCT
      && exists order :: Lists(order, v.entries.Keys) && EncodesEntries(w, val, order, v.entries, t.entries)
  }

  ghost predicate EncodesFields(outs: seq<Out>, fields: Record, fs: Fields)
    decreases fs, |outs|
  {
    if outs == [] then fs == NoField
    else if Emitted(outs[0], fields) then
      fs.Field? && fs.fid == outs[0].fid && Encodes(outs[0].kind, fields[fs.fid], fs.value)
        && EncodesFields(outs[1..], fields, fs.more)
    else EncodesFields(outs[1..], fields, fs)
  }

  /** Of a union only the first variant set is written. */
  ghost predicate EncodesVariant(outs: seq<Out>, fields: Record, fs: Fields)
    decreases fs, |outs|
  {
    if outs == [] then fs == NoField
    else if Emitted(outs[0], fields) then
      fs.Field? && fs.fid == outs[0].fid && Encodes(outs[0].kind, fields[fs.fid], fs.value) && fs.more == NoField
    else EncodesVariant(outs[1..], fields, fs)
  }

  ghost predicate EncodesItems(elem: Name, vs: seq<Value>, items: Items)
    decreases items, 0
  {
    if vs == [] then items == NoItem
    else items.Item? && Encodes(KRec(elem, false), vs[0], items.value) && EncodesItems(elem, vs[1..], items.more)
  }

  ghost predicate EncodesNums(w: nat, order: seq<int>, items: Items)
    decreases items, 0
  {
    if order == [] then items == NoItem
    else items.Item? && items.value == NumTerm(w, order[0]) && EncodesNums(w, order[1..], items.more)
  }

  ghost predicate EncodesPairs(key: Name, val: Name, vs: seq<Pair>, es: Entries)
    decreases es, 0
  {
    if vs == [] then es == NoEntry
    else
      && es.Entry? && Encodes(KRec(key, false), vs[0].key, es.key) && Encodes(KRec(val, false), vs[0].value, es.value)
      && EncodesPairs(key, val, vs[1..], es.more)
  }

  ghost predicate EncodesEntries(w: nat, val: Name, order: seq<int>, m: map<int, Value>, es: Entries)
    decreases es, 0
  {
    if order == [] then es == NoEntry
    else
      && es.Entry? && order[0] in m && es.key == NumTerm(w, order[0])
      && Encodes(KRec(val, false), m[order[0]], es.value)
      && EncodesEntries(w, val, order[1..], m, es.more)
  }

  // ---- The meaning of what is written is what was to be written ----

  /** Nothing is there yet that decoding would build upon. */
  predicate Clean(kind: Kind, prev: Option<Value>) {
    && (kind.KRec? && kind.inline ==> prev.None?)
    && (kind.KMapOf? && kind.merge ==> Onto(true, prev) == map[])
  }

  lemma {:induction false} Means(kind: Kind, v: Value, t: Term, prev: Option<Value>)
    requires Conforms(kind, v) && Encodes(kind, v, t) && Clean(kind, prev)
    ensures Fits(kind, t) && Meaning(kind, prev, t) == v
    decreases t, 0
  {
    hide Writes, Reads, Complete, Init, Signed, Lists, EncodesFields, EncodesVariant;
    match kind
    case KRec(s, inline) => RecordMeans(s, v.fields, t.fields);
    case KSeqOf(tag, elem) => ItemsMean(elem, v.items, t.items, []);
    case KSetOf(w) => SetMeans(w, v.elems, t.items);
    case KPairs(key, val) => PairsMean(key, val, v.pairs, t.entries, []);
    case KMapOf(w, val, merge) => MapMeans(w, val, v.entries, t.entries);
    case _ =>
  }

  lemma {:induction false} RecordMeans(s: Name, fields: Record, fs: Fields)
    requires Complete(s, fields)
    requires forall fid :: fid in fields ==> Reads(s, fid).Some? && Conforms(Reads(s, fid).value, fields[fid])
    requires if IsUnion(s) then EncodesVariant(Writes(s), fields, fs) else EncodesFields(Writes(s), fields, fs)
    ensures FitsFields(s, fs) && Interp(s, Init(s), fs) == fields
    decreases fs, 1
  {
    hide Writes, Reads, Init, Conforms, EncodesFields, EncodesVariant, FitsFields, Interp;
    assert Writes(s)[0..] == Writes(s);
    if IsUnion(s) { VariantIsFields(s, 0, fields, fs); }
    forall j | 0 <= j < |Writes(s)|
      ensures Clean(Writes(s)[j].kind, Old(Init(s), Writes(s)[j].fid))
    {
      InitClean(s, j);
    }
    FieldsMean(s, 0, fields, fs, Init(s));
    InitWritten(s, fields);
    AllEmitted(s, fields);
  }

  function EmittedFrom(s: Name, i: nat, fields: Record): set<int> {
    set j | i <= j < |Writes(s)| && Emitted(Writes(s)[j], fields) :: Writes(s)[j].fid
  }

  function Chosen(ids: set<int>, fields: Record): Record { map fid | fid in ids && fid in fields :: fields[fid] }

  lemma AllEmitted(s: Name, fields: Record)
    requires Complete(s, fields) && Init(s).Keys <= fields.Keys
    ensures Init(s) + Chosen(EmittedFrom(s, 0, fields), fields) == fields
  {
    hide Writes, Init, Emitted;
    forall fid | fid in fields ensures fid in EmittedFrom(s, 0, fields) {
      var i :| 0 <= i < |Writes(s)| && Writes(s)[i].fid == fid;
    }
  }

  lemma InitWritten(s: Name, fields: Record)
    requires Complete(s, fields)
    ensures Init(s).Keys <= fields.Keys
  {
    var outs := Writes(s);
    hide Complete, NonEmpty, Emitted;
    if s == LIEMessage {
      RequiredPresent(s, fields, 2);
      RequiredPresent(s, fields, 9);
    } else if s == PrefixAttributes {
      RequiredPresent(s, fields, 0);
    } else if s == NodeTIEElement {
      RequiredPresent(s, fields, 1);
    }
  }

  lemma RequiredPresent(s: Name, fields: Record, i: nat)
    requires Complete(s, fields) && i < |Writes(s)| && Writes(s)[i].when == Always
    ensures Writes(s)[i].fid in fields
  {
    hide Writes;
  }

  lemma InitClean(s: Name, j: nat)
    requires j < |Writes(s)|
    ensures Clean(Writes(s)[j].kind, Old(Init(s), Writes(s)[j].fid))
  {
    if s != LIEMessage && s != PrefixAttributes && s != NodeTIEElement {
      hide Writes;
      assert Init(s) == map[];
    }
  }

  /** With one variant at most, the first is all. */
  lemma {:induction false} VariantIsFields(s: Name, i: nat, fields: Record, fs: Fields)
    requires i <= |Writes(s)| && |fields| <= 1 && EncodesVariant(Writes(s)[i..], fields, fs)
    ensures EncodesFields(Writes(s)[i..], fields, fs)
    decreases |Writes(s)| - i
  {
    hide Writes, Encodes;
    var outs := Writes(s)[i..];
    if i < |Writes(s)| {
      assert outs[0] == Writes(s)[i] && outs[1..] == Writes(s)[i + 1..];
      if Emitted(outs[0], fields) {
        OnlyOne(s, i, fields);
        NoneLeft(s, i + 1, fields);
      } else {
        VariantIsFields(s, i + 1, fields, fs);
      }
    }
  }

  lemma {:induction false} Ascending(s: Name, i: nat, j: nat)
    requires i < j < |Writes(s)|
    ensures Writes(s)[i].fid < Writes(s)[j].fid
  {
    hide Writes, Reads;
    TablesAgree(s, j);
    if i < j - 1 { Ascending(s, i, j - 1); }
  }

  lemma OnlyOne(s: Name, i: nat, fields: Record)
    requires i < |Writes(s)| && |fields| <= 1 && Writes(s)[i].fid in fields
    ensures forall j :: i < j < |Writes(s)| ==> Writes(s)[j].fid !in fields
  {
    hide Writes;
    assert |fields| == |fields.Keys|;
    forall j | i < j < |Writes(s)| ensures Writes(s)[j].fid !in fields {
      Ascending(s, i, j);
      NoSecond(fields.Keys, Writes(s)[i].fid, Writes(s)[j].fid);
    }
  }

  lemma NoSecond(keys: set<int>, a: int, b: int)
    requires |keys| <= 1 && a in keys && a != b
    ensures b !in keys
  {
    var rest := keys - {a};
    assert |rest| == 0;
  }

  lemma {:induction false} NoneLeft(s: Name, i: nat, fields: Record)
    requires i <= |Writes(s)| && forall j :: i <= j < |Writes(s)| ==> Writes(s)[j].fid !in fields
    ensures EncodesFields(Writes(s)[i..], fields, NoField)
    decreases |Writes(s)| - i
  {
    hide Writes, Encodes;
    if i < |Writes(s)| {
      assert Writes(s)[i..][0] == Writes(s)[i] && Writes(s)[i..][1..] == Writes(s)[i + 1..];
      NoneLeft(s, i + 1, fields);
    }
  }

  lemma {:induction false} FieldsMean(s: Name, i: nat, fields: Record, fs: Fields, r: Record)
    requires i <= |Writes(s)| && EncodesFields(Writes(s)[i..], fields, fs)
    requires forall fid :: fid in fields ==> Reads(s, fid).Some? && Conforms(Reads(s, fid).value, fields[fid])
    requires forall j :: i <= j < |Writes(s)| ==> Clean(Writes(s)[j].kind, Old(r, Writes(s)[j].fid))
    ensures FitsFields(s, fs) && Interp(s, r, fs) == r + Chosen(EmittedFrom(s, i, fields), fields)
    decreases fs, 0, |Writes(s)| - i
  {
    hide Writes, Reads, Conforms, Encodes, Emitted, Fits, Meaning, Clean, Signed, WellTyped;
    if i == |Writes(s)| {
      assert EmittedFrom(s, i, fields) == {};
    } else {
      var o := Writes(s)[i];
      assert Writes(s)[i..][0] == o && Writes(s)[i..][1..] == Writes(s)[i + 1..];
      OneEmitted(s, i, fields);
      if Emitted(o, fields) {
        EmittedPresent(o, fields);
        TablesAgree(s, i);
        InRange16(o.fid);
        Means(o.kind, fields[o.fid], fs.value, Old(r, o.fid));
        var r' := r[o.fid := fields[o.fid]];
        forall j | i < j < |Writes(s)|
          ensures Clean(Writes(s)[j].kind, Old(r', Writes(s)[j].fid))
        {
          Ascending(s, i, j);
        }
        FieldsMean(s, i + 1, fields, fs.more, r');
        ChosenFirst(r, o.fid, EmittedFrom(s, i + 1, fields), fields);
      } else {
        FieldsMean(s, i + 1, fields, fs, r);
      }
    }
  }

  lemma EmittedPresent(o: Out, fields: Record)
    requires Emitted(o, fields)
    ensures o.fid in fields
  {
  }

  lemma InRange16(fid: int)
    requires 0 < fid < 0x8000
    ensures Signed(fid, 2)
  {
    Widths();
  }

  lemma OneEmitted(s: Name, i: nat, fields: Record)
    requires i < |Writes(s)|
    ensures EmittedFrom(s, i, fields) ==
              EmittedFrom(s, i + 1, fields) + if Emitted(Writes(s)[i], fields) then {Writes(s)[i].fid} else {}
  {
    hide Writes, Emitted;
  }

  lemma ChosenFirst(r: Record, fid: int, ids: set<int>, fields: Record)
    requires fid in fields
    ensures r[fid := fields[fid]] + Chosen(ids, fields) == r + Chosen(ids + {fid}, fields)
  {
  }

  lemma {:induction false} ItemsMean(elem: Name, vs: seq<Value>, items: Items, done: seq<Value>)
    requires EncodesItems(elem, vs, items) && forall i :: 0 <= i < |vs| ==> Conforms(KRec(elem, false), vs[i])
    ensures FitsItems(elem, items) && ItemCount(items) == |vs| && ItemsMeaning(elem, done, items) == done + vs
    decreases items, 0
  {
    hide Conforms, Encodes, Fits, Meaning;
    if vs != [] {
      Means(KRec(elem, false), vs[0], items.value, None);
      ItemsMean(elem, vs[1..], items.more, done + [vs[0]]);
      assert done + [vs[0]] + vs[1..] == done + vs;
    }
  }

  lemma SetMeans(w: nat, elems: set<int>, items: Items)
    requires Width(w) && (forall n :: n in elems ==> Signed(n, w))
    requires exists order :: Lists(order, elems) && EncodesNums(w, order, items)
    ensures FitsNums(w, items) && ItemCount(items) == |elems| && NumsMeaning({}, items) == elems
  {
    hide Signed, EncodesNums;
    var order :| Lists(order, elems) && EncodesNums(w, order, items);
    assert forall i :: 0 <= i < |order| ==> order[i] in Elements(order);
    NumsMean(w, order, items, {});
    assert {} + Elements(order) == elems;
  }

  lemma {:induction false} NumsMean(w: nat, order: seq<int>, items: Items, done: set<int>)
    requires Width(w) && (forall i :: 0 <= i < |order| ==> Signed(order[i], w)) && EncodesNums(w, order, items)
    ensures FitsNums(w, items) && ItemCount(items) == |order| && NumsMeaning(done, items) == done + Elements(order)
    decreases items
  {
    hide Signed;
    if order != [] {
      NumsMean(w, order[1..], items.more, done + {order[0]});
      assert Elements(order) == {order[0]} + Elements(order[1..]) by { assert order == [order[0]] + order[1..]; }
      assert done + {order[0]} + Elements(order[1..]) == done + Elements(order);
    } else {
      assert done + Elements(order) == done;
    }
  }

  lemma PairStep(key: Name, val: Name, es: Entries, done: seq<Pair>, p: Pair)
    requires es.Entry? && FitsPairs(key, val, es.more)
    requires Fits(KRec(key, false), es.key) && Meaning(KRec(key, false), None, es.key) == p.key
    requires Fits(KRec(val, false), es.value) && Meaning(KRec(val, false), None, es.value) == p.value
    ensures FitsPairs(key, val, es) && EntryCount(es) == 1 + EntryCount(es.more)
    ensures PairsMeaning(key, val, done, es) == PairsMeaning(key, val, done + [p], es.more)
  {
    hide Fits, Meaning;
  }

  lemma {:induction false} PairsMean(key: Name, val: Name, vs: seq<Pair>, es: Entries, done: seq<Pair>)
    requires EncodesPairs(key, val, vs, es)
    requires forall i :: 0 <= i < |vs| ==>
               Conforms(KRec(key, false), vs[i].key) && Conforms(KRec(val, false), vs[i].value)
    ensures FitsPairs(key, val, es) && EntryCount(es) == |vs| && PairsMeaning(key, val, done, es) == done + vs
    decreases es, 0
  {
    hide Conforms, Encodes, Fits, Meaning;
    if vs != [] {
      hide FitsPairs, PairsMeaning;
      Means(KRec(key, false), vs[0].key, es.key, None);
      Means(KRec(val, false), vs[0].value, es.value, None);
      PairsMean(key, val, vs[1..], es.more, done + [vs[0]]);
      PairStep(key, val, es, done, vs[0]);
      assert done + [vs[0]] + vs[1..] == done + vs;
    }
  }

  function Restricted(m: map<int, Value>, order: seq<int>): map<int, Value> { map k | k in order && k in m :: m[k] }

  lemma {:induction false} MapMeans(w: nat, val: Name, m: map<int, Value>, es: Entries)
    requires Width(w) && (forall k :: k in m ==> Signed(k, w) && Conforms(KRec(val, false), m[k]))
    requires exists order :: Lists(order, m.Keys) && EncodesEntries(w, val, order, m, es)
    ensures FitsEntries(w, val, es) && EntryCount(es) == |m| && EntriesMeaning(w, val, map[], es) == m
    decreases es, 1
  {
    hide Signed, EncodesEntries, Conforms;
    var order :| Lists(order, m.Keys) && EncodesEntries(w, val, order, m, es);
    assert forall i :: 0 <= i < |order| ==> order[i] in Elements(order);
    EntriesMean(w, val, order, m, es, map[]);
    assert map[] + Restricted(m, order) == m by { assert forall k :: k in m ==> k in Elements(order); }
    assert |m| == |m.Keys|;
  }

  lemma EntryStep(w: nat, val: Name, es: Entries, done: map<int, Value>, k: int, v: Value)
    requires es.Entry? && es.key == NumTerm(w, k) && Signed(k, w) && Width(w) && FitsEntries(w, val, es.more)
    requires Fits(KRec(val, false), es.value) && Meaning(KRec(val, false), None, es.value) == v
    ensures FitsEntries(w, val, es) && EntryCount(es) == 1 + EntryCount(es.more)
    ensures EntriesMeaning(w, val, done, es) == EntriesMeaning(w, val, done[k := v], es.more)
  {
    hide Fits, Meaning;
  }

  lemma {:induction false} EntriesMean(w: nat, val: Name, order: seq<int>, m: map<int, Value>, es: Entries,
                                       done: map<int, Value>)
    requires Width(w) && EncodesEntries(w, val, order, m, es)
    requires forall i :: 0 <= i < |order| ==>
               order[i] in m && Signed(order[i], w) && Conforms(KRec(val, false), m[order[i]])
    ensures FitsEntries(w, val, es) && EntryCount(es) == |order|
    ensures EntriesMeaning(w, val, done, es) == done + Restricted(m, order)
    decreases es, 0
  {
    hide Signed, Conforms, Encodes, Fits, Meaning, FitsEntries, EntriesMeaning, Restricted, NumTerm, Width;
    if order != [] {
      var k := order[0];
      Means(KRec(val, false), m[k], es.value, None);
      EntriesMean(w, val, order[1..], m, es.more, done[k := m[k]]);
      EntryStep(w, val, es, done, k, m[k]);
      RestrictedFirst(m, order, done);
    } else {
      NoEntries(w, val, m, done);
    }
  }

  lemma RestrictedFirst(m: map<int, Value>, order: seq<int>, done: map<int, Value>)
    requires order != [] && order[0] in m
    ensures done[order[0] := m[order[0]]] + Restricted(m, order[1..]) == done + Restricted(m, order)
  {
    assert order == [order[0]] + order[1..];
  }

  lemma NoEntries(w: nat, val: Name, m: map<int, Value>, done: map<int, Value>)
    ensures FitsEntries(w, val, NoEntry) && EntriesMeaning(w, val, done, NoEntry) == done + Restricted(m, [])
  {
  }

  /**
   * Decoding what was encoded gives the packet back and consumes every byte, whatever order sets and maps were written
   * in.
   */
  lemma PacketRoundTrip(packet: Record, t: Term, rest: seq<Byte>)
    requires Conforms(KRec(ProtocolPacket, false), VRec(packet))
    requires Encodes(KRec(ProtocolPacket, false), VRec(packet), t)
    ensures DecodePacket(Bytes(t) + rest) == Ok(packet, rest)
  {
    hide Conforms, Encodes, Bytes, Init, DecFields;
    Means(KRec(ProtocolPacket, false), VRec(packet), t, None);
    MeansRecord(ProtocolPacket, t, packet);
    FieldsDecode(ProtocolPacket, Init(ProtocolPacket), t.fields, rest);
    StructBytes(t);
  }

  lemma MeansRecord(s: Name, t: Term, r: Record)
    requires Fits(KRec(s, false), t) && Meaning(KRec(s, false), None, t) == VRec(r)
    ensures t.TStruct? && FitsFields(s, t.fields) && Interp(s, Init(s), t.fields) == r
  {
  }

  lemma StructBytes(t: Term)
    requires t.TStruct?
    ensures Bytes(t) == FieldBytes(t.fields)
  {
  }
}
