/** The Thrift binary protocol: big-endian numbers, wire terms, their bytes, and skipping. */
module Wire {
  import opened Digits

  type Byte = b: int | 0 <= b < 256

  datatype Result<+T> = Ok(value: T, rest: seq<Byte>) | Err

  const STOP := 0
  const BOOL := 2
  const BYTE := 3
  const I16 := 6
  const I32 := 8
  const I64 := 10
  const STRING := 11
  const STRUCT := 12
  const MAP := 13
  const SET := 14
  const LIST := 15

  const MAX_STRING := 0x10_0000

  // ---- Numbers ----

  function Pow256(k: nat): nat { if k == 0 then 1 else 256 * Pow256(k - 1) }

  function BigEndian(n: nat, k: nat): (b: seq<Byte>)
    ensures |b| == k
  {
    if k == 0 then [] else BigEndian(n / 256, k - 1) + [n % 256]
  }

  function FromBigEndian(b: seq<Byte>): nat {
    if b == [] then 0 else FromBigEndian(b[..|b| - 1]) * 256 + b[|b| - 1]
  }

  lemma {:induction false} BigEndianRoundTrip(n: nat, k: nat)
    requires n < Pow256(k)
    ensures FromBigEndian(BigEndian(n, k)) == n
  {
    if k > 0 {
      var b := BigEndian(n, k);
      assert b[..k - 1] == BigEndian(n / 256, k - 1);
      BigEndianRoundTrip(n / 256, k - 1);
    }
  }

  lemma {:induction false} FromBigEndianBound(b: seq<Byte>)
    ensures FromBigEndian(b) < Pow256(|b|)
  {
    if b != [] {
      FromBigEndianBound(b[..|b| - 1]);
    }
  }

  /** A value of a signed Go integer of k bytes. */
  predicate Signed(n: int, k: nat) { 0 - Pow256(k) <= 2 * n < Pow256(k) }

  function ToSigned(u: nat, k: nat): int { if 2 * u >= Pow256(k) then u - Pow256(k) else u }

  function NumBytes(n: int, k: nat): (b: seq<Byte>)
    ensures |b| == k
  {
    if n < 0 - Pow256(k) then BigEndian(0, k) else BigEndian(if n < 0 then n + Pow256(k) else n, k)
  }

  function ReadNum(b: seq<Byte>, k: nat): (r: Result<int>)
    ensures r.Ok? ==> |r.rest| == |b| - k && r.rest == b[k..]
  {
    if |b| < k then Err else Ok(ToSigned(FromBigEndian(b[..k]), k), b[k..])
  }

  lemma NumRoundTrip(n: int, k: nat, rest: seq<Byte>)
    requires Signed(n, k)
    ensures ReadNum(NumBytes(n, k) + rest, k) == Ok(n, rest)
  {
    hide BigEndian, FromBigEndian;
    var u := if n < 0 then n + Pow256(k) else n;
    BigEndianRoundTrip(u, k);
    assert (NumBytes(n, k) + rest)[..k] == NumBytes(n, k);
    assert (NumBytes(n, k) + rest)[k..] == rest;
  }

  lemma Widths()
    ensures Pow256(1) == 0x100 && Pow256(2) == 0x1_0000 && Pow256(4) == 0x1_0000_0000
    ensures Pow256(8) == 0x1_0000_0000_0000_0000
  {
    assert Pow256(0) == 1;
    assert Pow256(3) == 0x100_0000;
    assert Pow256(5) == 0x100_0000_0000;
    assert Pow256(7) == 0x100_0000_0000_0000;
  }

  // ---- Byte order ----

  lemma PowPositive(k: nat)
    ensures Pow256(k) > 0
  {
  }

  /** Byte i of k is the digit of weight 256^(k - 1 - i): the most significant byte comes first. */
  lemma {:induction false} BigEndianDigit(n: nat, k: nat, i: nat)
    requires i < k
    ensures Pow256(k - 1 - i) > 0 && BigEndian(n, k)[i] == n / Pow256(k - 1 - i) % 256
  {
    PowPositive(k - 1 - i);
    if i < k - 1 {
      PowPositive(k - 2 - i);
      BigEndianDigit(n / 256, k - 1, i);
      DivTwice(n, 256, Pow256(k - 2 - i));
    }
  }

  lemma {:induction false} FromBigEndianDigit(b: seq<Byte>, i: nat)
    requires i < |b|
    ensures Pow256(|b| - 1 - i) > 0 && b[i] == FromBigEndian(b) / Pow256(|b| - 1 - i) % 256
  {
    PowPositive(|b| - 1 - i);
    var init := b[..|b| - 1];
    var x := FromBigEndian(init);
    if i < |b| - 1 {
      PowPositive(|b| - 2 - i);
      FromBigEndianDigit(init, i);
      DivUnique(FromBigEndian(b), 256, x, b[|b| - 1]);
      DivTwice(FromBigEndian(b), 256, Pow256(|b| - 2 - i));
    }
  }

  /** A number on the wire is its two's complement in base 256, most significant digit first. */
  lemma NumDigit(n: int, k: nat, i: nat)
    requires Signed(n, k) && i < k
    ensures Pow256(k - 1 - i) > 0
    ensures NumBytes(n, k)[i] == (if n < 0 then n + Pow256(k) else n) / Pow256(k - 1 - i) % 256
  {
    hide BigEndian;
    BigEndianDigit(if n < 0 then n + Pow256(k) else n, k, i);
  }

  /** And on any bytes the number read is the one with these digits. */
  lemma ReadDigit(b: seq<Byte>, k: nat, i: nat)
    requires i < k <= |b|
    ensures var v := ReadNum(b, k).value;
            && Signed(v, k) && Pow256(k - 1 - i) > 0
            && b[i] == (if v < 0 then v + Pow256(k) else v) / Pow256(k - 1 - i) % 256
  {
    hide FromBigEndian;
    FromBigEndianBound(b[..k]);
    FromBigEndianDigit(b[..k], i);
  }

  lemma SmallPowers()
    ensures Pow256(0) == 1 && Pow256(1) == 0x100 && Pow256(2) == 0x1_0000 && Pow256(3) == 0x100_0000
    ensures Pow256(4) == 0x1_0000_0000
  {
    Widths();
    assert Pow256(3) == 0x100_0000;
  }

  /** A number of two bytes that is not negative. */
  lemma TwoBytes(n: nat)
    requires n < 0x8000
    ensures NumBytes(n, 2) == [n / 0x100, n % 0x100]
  {
    hide NumBytes, Pow256;
    SmallPowers();
    NumDigit(n, 2, 0);
    NumDigit(n, 2, 1);
  }

  /** And one of four. */
  lemma FourBytes(n: nat)
    requires n < 0x8000_0000
    ensures NumBytes(n, 4) == [n / 0x100_0000, n / 0x1_0000 % 0x100, n / 0x100 % 0x100, n % 0x100]
  {
    hide NumBytes, Pow256;
    SmallPowers();
    NumDigit(n, 4, 0);
    NumDigit(n, 4, 1);
    NumDigit(n, 4, 2);
    NumDigit(n, 4, 3);
  }

  // ---- Terms ----

  datatype Term =
    | TBool(raw: Byte) | TByte(n: int) | TI16(n: int) | TI32(n: int) | TI64(n: int)
    | TText(bytes: seq<Byte>)
    | TStruct(fields: Fields)
    | TList(tag: Byte, etype: Byte, items: Items)
    | TMap(ktype: Byte, vtype: Byte, entries: Entries)
  datatype Fields = NoField | Field(fid: int, value: Term, more: Fields)
  datatype Items = NoItem | Item(value: Term, more: Items)
  datatype Entries = NoEntry | Entry(key: Term, value: Term, more: Entries)

  function TypeCode(t: Term): Byte {
    match t
    case TBool(_) => BOOL
    case TByte(_) => BYTE
    case TI16(_) => I16
    case TI32(_) => I32
    case TI64(_) => I64
    case TText(_) => STRING
    case TStruct(_) => STRUCT
    case TList(tag, _, _) => tag
    case TMap(_, _, _) => MAP
  }

  function ItemCount(items: Items): nat { if items.NoItem? then 0 else 1 + ItemCount(items.more) }

  function EntryCount(es: Entries): nat { if es.NoEntry? then 0 else 1 + EntryCount(es.more) }

  function Bytes(t: Term): seq<Byte> {
    match t
    case TBool(raw) => [raw]
    case TByte(n) => NumBytes(n, 1)
    case TI16(n) => NumBytes(n, 2)
    case TI32(n) => NumBytes(n, 4)
    case TI64(n) => NumBytes(n, 8)
    case TText(bytes) => NumBytes(|bytes|, 4) + bytes
    case TStruct(fields) => FieldBytes(fields)
    case TList(_, etype, items) => [etype] + (NumBytes(ItemCount(items), 4) + ItemBytes(items))
    case TMap(ktype, vtype, entries) => [ktype] + ([vtype] + (NumBytes(EntryCount(entries), 4) + EntryBytes(entries)))
  }

  function FieldBytes(fs: Fields): seq<Byte> {
    match fs
    case NoField => [STOP]
    case Field(fid, value, more) => [TypeCode(value)] + (NumBytes(fid, 2) + (Bytes(value) + FieldBytes(more)))
  }

  function ItemBytes(items: Items): seq<Byte> {
    match items
    case NoItem => []
    case Item(value, more) => Bytes(value) + ItemBytes(more)
  }

  function EntryBytes(es: Entries): seq<Byte> {
    match es
    case NoEntry => []
    case Entry(key, value, more) => Bytes(key) + (Bytes(value) + EntryBytes(more))
  }

  /** The code a term is announced by. */
  lemma Codes(t: Term)
    ensures t.TBool? ==> TypeCode(t) == 2
    ensures t.TByte? ==> TypeCode(t) == 3
    ensures t.TI16? ==> TypeCode(t) == 6
    ensures t.TI32? ==> TypeCode(t) == 8
    ensures t.TI64? ==> TypeCode(t) == 10
    ensures t.TText? ==> TypeCode(t) == 11
    ensures t.TStruct? ==> TypeCode(t) == 12
    ensures t.TMap? ==> TypeCode(t) == 13
    ensures t.TList? && t.tag == SET ==> TypeCode(t) == 14
    ensures t.TList? && t.tag == LIST ==> TypeCode(t) == 15
  {
  }

  /**
   * A field is its type's code, its identifier with the more significant byte first, and its value; a struct ends with
   * 0.
   */
  lemma FieldLayout(fid: nat, value: Term, more: Fields)
    requires fid < 0x8000
    ensures FieldBytes(Field(fid, value, more)) ==
              [TypeCode(value), fid / 0x100, fid % 0x100] + Bytes(value) + FieldBytes(more)
    ensures FieldBytes(NoField) == [0]
  {
    hide Bytes, NumBytes, TypeCode;
    TwoBytes(fid);
    assert [TypeCode(value)] + ([fid / 0x100, fid % 0x100] + (Bytes(value) + FieldBytes(more))) ==
           [TypeCode(value), fid / 0x100, fid % 0x100] + Bytes(value) + FieldBytes(more);
  }

  /**
   * The count of a string, a list, a set or a map stands in four bytes, most significant first, after the element
   * types.
   */
  lemma CountLayout(t: Term, n: nat)
    requires n < 0x8000_0000
    requires || (t.TText? && n == |t.bytes|) || (t.TList? && n == ItemCount(t.items))
             || (t.TMap? && n == EntryCount(t.entries))
    ensures var count: seq<Byte> := [n / 0x100_0000, n / 0x1_0000 % 0x100, n / 0x100 % 0x100, n % 0x100];
            && (t.TText? ==> Bytes(t) == count + t.bytes)
            && (t.TList? ==> Bytes(t) == [t.etype] + count + ItemBytes(t.items))
            && (t.TMap? ==> Bytes(t) == [t.ktype, t.vtype] + count + EntryBytes(t.entries))
  {
    hide NumBytes, ItemBytes, EntryBytes;
    FourBytes(n);
    var count: seq<Byte> := [n / 0x100_0000, n / 0x1_0000 % 0x100, n / 0x100 % 0x100, n % 0x100];
    match t
    case TList(_, etype, items) => assert [etype] + (count + ItemBytes(items)) == [etype] + count + ItemBytes(items);
    case TMap(k, v, es) => assert [k] + ([v] + (count + EntryBytes(es))) == [k, v] + count + EntryBytes(es);
    case _ =>
  }

  // ---- Well-formed values of any type ----

  predicate Int32Count(n: nat) { n < 0x8000_0000 }

  predicate Flat(t: Term) {
    match t
    case TBool(_) => true
    case TByte(n) => Signed(n, 1)
    case TI16(n) => Signed(n, 2)
    case TI32(n) => Signed(n, 4)
    case TI64(n) => Signed(n, 8)
    case TText(bytes) => |bytes| <= MAX_STRING
    case _ => true
  }

  /** A Thrift value: numbers in range, strings of at most 1 MiB, elements of the announced types. */
  predicate WellTyped(t: Term)
    decreases t
  {
    match t
    case TStruct(fields) => WellTypedFields(fields)
    case TList(tag, etype, items) =>
      (tag == SET || tag == LIST) && Int32Count(ItemCount(items)) && WellTypedItems(etype, items)
    case TMap(ktype, vtype, entries) => Int32Count(EntryCount(entries)) && WellTypedEntries(ktype, vtype, entries)
    case _ => Flat(t)
  }

  predicate WellTypedFields(fs: Fields)
    decreases fs
  {
    fs.Field? ==> Signed(fs.fid, 2) && WellTyped(fs.value) && WellTypedFields(fs.more)
  }

  predicate WellTypedItems(etype: Byte, items: Items)
    decreases items
  {
    items.Item? ==> TypeCode(items.value) == etype && WellTyped(items.value) && WellTypedItems(etype, items.more)
  }

  predicate WellTypedEntries(ktype: Byte, vtype: Byte, es: Entries)
    decreases es
  {
    es.Entry? ==>
      && TypeCode(es.key) == ktype && TypeCode(es.value) == vtype
      && WellTyped(es.key) && WellTyped(es.value) && WellTypedEntries(ktype, vtype, es.more)
  }

  // ---- Reading ----

  function ReadByte(b: seq<Byte>): (r: Result<Byte>)
    ensures r.Ok? ==> |r.rest| == |b| - 1
  {
    if b == [] then Err else Ok(b[0], b[1..])
  }

  /** readString and readBinary: at most 1 MiB. */
  function ReadText(b: seq<Byte>): (r: Result<seq<Byte>>)
    ensures r.Ok? ==> |r.rest| <= |b| - 4 && |r.value| <= MAX_STRING
  {
    var n := ReadNum(b, 4);
    if n.Err? || n.value < 0 || n.value > MAX_STRING || |n.rest| < n.value then Err
      else Ok(n.rest[..n.value], n.rest[n.value..])
  }

  /** Two bytes as a number. */
  lemma TwoDigits(b: seq<Byte>)
    requires |b| == 2
    ensures FromBigEndian(b) == b[0] as int * 0x100 + b[1] as int
  {
    var first := b[..1];
    assert first[..0] == [] && first[0] == b[0];
    assert FromBigEndian(first) == FromBigEndian([]) * 256 + b[0];
    assert FromBigEndian(b) == FromBigEndian(first) * 256 + b[1];
  }

  /** A string is read exactly if its length, in four bytes, is 0 to 1 MiB and as many bytes follow. */
  lemma TextReadExactly(b: seq<Byte>)
    ensures ReadText(b).Ok? <==> |b| >= 4 && 0 <= ReadNum(b, 4).value <= 1_048_576 &&
                                 4 + ReadNum(b, 4).value <= |b|
    ensures ReadText(b).Ok? ==>
              var n := ReadNum(b, 4).value; ReadText(b).value == b[4..4 + n] && ReadText(b).rest == b[4 + n..]
  {
    hide FromBigEndian, ToSigned;
    if |b| >= 4 { Enough(b, 4); }
  }

  datatype Header = Header(ftype: Byte, fid: int)

  /** A field header; the stop byte stands alone. */
  function ReadFieldHeader(b: seq<Byte>): (r: Result<Header>)
    ensures r.Ok? ==> |r.rest| < |b|
  {
    var t := ReadByte(b);
    if t.Err? then Err
    else if t.value == STOP then Ok(Header(STOP, 0), t.rest)
    else var f := ReadNum(t.rest, 2); if f.Err? then Err else Ok(Header(t.value, f.value), f.rest)
  }

  /** What a reader takes from the bytes of a field: type code, then the identifier, more significant byte first. */
  lemma FieldHeaderRead(b: seq<Byte>)
    requires |b| >= 3 && b[0] != 0
    ensures ReadFieldHeader(b) ==
              var u: int := b[1] as int * 0x100 + b[2] as int;
              Ok(Header(b[0], if u < 0x8000 then u else u - 0x1_0000), b[3..])
  {
    hide FromBigEndian, ReadNum, Pow256;
    SmallPowers();
    var n := ReadNum(b[1..], 2);
    ReadDigit(b[1..], 2, 0);
    ReadDigit(b[1..], 2, 1);
    Enough(b[1..], 2);
    assert b[1..][2..] == b[3..];
  }

  lemma Enough(b: seq<Byte>, k: nat)
    requires k <= |b|
    ensures ReadNum(b, k).Ok?
  {
    hide FromBigEndian;
  }

  function Dropped<T>(r: Result<T>): Result<()> { if r.Ok? then Ok((), r.rest) else Err }

  function Skip(ftype: Byte, b: seq<Byte>): (r: Result<()>)
    ensures r.Ok? ==> |r.rest| < |b|
    decreases |b|, 1, 0
  {
    if ftype == BOOL || ftype == BYTE then Dropped(ReadByte(b))
    else if ftype == I16 then Dropped(ReadNum(b, 2))
    else if ftype == I32 then Dropped(ReadNum(b, 4))
    else if ftype == I64 then Dropped(ReadNum(b, 8))
    else if ftype == STRING then Dropped(ReadText(b))
    else if ftype == STRUCT then SkipFields(b)
    else if ftype == MAP then
      var kt := ReadByte(b);
      if kt.Err? then Err else
      var vt := ReadByte(kt.rest);
      if vt.Err? then Err else
      var n := ReadNum(vt.rest, 4);
      if n.Err? then Err else SkipPairs(kt.value, vt.value, n.value, n.rest)
    else if ftype == SET || ftype == LIST then
      var et := ReadByte(b);
      if et.Err? then Err else
      var n := ReadNum(et.rest, 4);
      if n.Err? then Err else SkipMany(et.value, n.value, n.rest)
    else Err
  }

  function SkipFields(b: seq<Byte>): (r: Result<()>)
    ensures r.Ok? ==> |r.rest| < |b|
    decreases |b|, 0, 0
  {
    var h := ReadFieldHeader(b);
    if h.Err? then Err
    else if h.value.ftype == STOP then Ok((), h.rest)
    else var v := Skip(h.value.ftype, h.rest); if v.Err? then Err else SkipFields(v.rest)
  }

  function SkipMany(etype: Byte, n: int, b: seq<Byte>): (r: Result<()>)
    ensures r.Ok? ==> |r.rest| <= |b|
    decreases |b|, 2, 0
  {
    if n <= 0 then Ok((), b)
    else var v := Skip(etype, b); if v.Err? then Err else SkipMany(etype, n - 1, v.rest)
  }

  function SkipPairs(ktype: Byte, vtype: Byte, n: int, b: seq<Byte>): (r: Result<()>)
    ensures r.Ok? ==> |r.rest| <= |b|
    decreases |b|, 2, 0
  {
    if n <= 0 then Ok((), b)
    else
      var k := Skip(ktype, b);
      if k.Err? then Err else
      var v := Skip(vtype, k.rest);
      if v.Err? then Err else SkipPairs(ktype, vtype, n - 1, v.rest)
  }

  // ---- Skipping consumes exactly one value ----

  lemma FirstByte(x: Byte, rest: seq<Byte>)
    ensures ReadByte([x] + rest) == Ok(x, rest)
  {
  }

  lemma TextRoundTrip(bytes: seq<Byte>, rest: seq<Byte>)
    requires |bytes| <= MAX_STRING
    ensures ReadText(NumBytes(|bytes|, 4) + bytes + rest) == Ok(bytes, rest)
  {
    hide NumBytes, ReadNum, Pow256;
    CountInRange(|bytes|);
    NumRoundTrip(|bytes|, 4, bytes + rest);
    assert NumBytes(|bytes|, 4) + bytes + rest == NumBytes(|bytes|, 4) + (bytes + rest);
  }

  lemma CountInRange(n: nat)
    requires Int32Count(n)
    ensures Signed(n, 4)
  {
    Widths();
  }

  lemma HeaderRoundTrip(t: Term, fid: int, rest: seq<Byte>)
    requires Signed(fid, 2) && TypeCode(t) != STOP
    ensures ReadFieldHeader([TypeCode(t)] + (NumBytes(fid, 2) + rest)) == Ok(Header(TypeCode(t), fid), rest)
  {
    hide NumBytes, ReadNum;
    FirstByte(TypeCode(t), NumBytes(fid, 2) + rest);
    NumRoundTrip(fid, 2, rest);
  }

  /** A flat value is skipped exactly. */
  lemma SkipFlat(t: Term, rest: seq<Byte>)
    requires Flat(t) && !t.TStruct? && !t.TList? && !t.TMap?
    ensures Skip(TypeCode(t), Bytes(t) + rest) == Ok((), rest)
  {
    hide NumBytes, ReadNum, Signed;
    match t
    case TBool(raw) => FirstByte(raw, rest);
    case TByte(n) =>
    case TI16(n) => NumRoundTrip(n, 2, rest);
    case TI32(n) => NumRoundTrip(n, 4, rest);
    case TI64(n) => NumRoundTrip(n, 8, rest);
    case TText(bytes) => TextRoundTrip(bytes, rest);
  }

  /** What a reader finds at the head of a list or set. */
  lemma ListHead(etype: Byte, items: Items, rest: seq<Byte>)
    requires Int32Count(ItemCount(items))
    ensures ReadByte([etype] + (NumBytes(ItemCount(items), 4) + ItemBytes(items)) + rest) ==
              Ok(etype, NumBytes(ItemCount(items), 4) + ItemBytes(items) + rest)
    ensures ReadNum(NumBytes(ItemCount(items), 4) + ItemBytes(items) + rest, 4) ==
              Ok(ItemCount(items), ItemBytes(items) + rest)
  {
    hide NumBytes, ReadNum, Signed, ReadByte;
    var count, data := NumBytes(ItemCount(items), 4), ItemBytes(items);
    assert count + data + rest == count + (data + rest);
    assert [etype] + (count + data) + rest == [etype] + (count + data + rest);
    FirstByte(etype, count + data + rest);
    CountInRange(ItemCount(items));
    NumRoundTrip(ItemCount(items), 4, data + rest);
  }

  /** What a reader finds at the head of a map. */
  lemma MapHead(ktype: Byte, vtype: Byte, es: Entries, rest: seq<Byte>)
    requires Int32Count(EntryCount(es))
    ensures ReadByte([ktype] + ([vtype] + (NumBytes(EntryCount(es), 4) + EntryBytes(es))) + rest) ==
            Ok(ktype, [vtype] + (NumBytes(EntryCount(es), 4) + EntryBytes(es)) + rest)
    ensures ReadByte([vtype] + (NumBytes(EntryCount(es), 4) + EntryBytes(es)) + rest) ==
              Ok(vtype, NumBytes(EntryCount(es), 4) + EntryBytes(es) + rest)
    ensures ReadNum(NumBytes(EntryCount(es), 4) + EntryBytes(es) + rest, 4) == Ok(EntryCount(es), EntryBytes(es) + rest)
  {
    hide NumBytes, ReadNum, Signed, ReadByte;
    var count, data := NumBytes(EntryCount(es), 4), EntryBytes(es);
    assert count + data + rest == count + (data + rest);
    assert [vtype] + (count + data) + rest == [vtype] + (count + data + rest);
    assert [ktype] + ([vtype] + (count + data)) + rest == [ktype] + ([vtype] + (count + data) + rest);
    FirstByte(vtype, count + data + rest);
    FirstByte(ktype, [vtype] + (count + data) + rest);
    CountInRange(EntryCount(es));
    NumRoundTrip(EntryCount(es), 4, data + rest);
  }

  /** skip consumes exactly one well-formed value, of whatever type, nested to whatever depth. */
  lemma {:induction false} SkipExactly(t: Term, rest: seq<Byte>)
    requires WellTyped(t)
    ensures Skip(TypeCode(t), Bytes(t) + rest) == Ok((), rest)
    decreases t
  {
    hide NumBytes, ReadNum, Signed, Flat;
    match t
    case TStruct(fields) => SkipFieldsExactly(fields, rest);
    case TList(tag, etype, items) =>
      ListHead(etype, items, rest);
      SkipManyExactly(etype, items, rest);
    case TMap(ktype, vtype, entries) =>
      MapHead(ktype, vtype, entries, rest);
      SkipPairsExactly(ktype, vtype, entries, rest);
    case _ => SkipFlat(t, rest);
  }

  lemma {:induction false} SkipFieldsExactly(fs: Fields, rest: seq<Byte>)
    requires WellTypedFields(fs)
    ensures SkipFields(FieldBytes(fs) + rest) == Ok((), rest)
    decreases fs
  {
    hide NumBytes, ReadNum, Signed, Skip, Bytes;
    match fs
    case NoField => FirstByte(STOP, rest);
    case Field(fid, value, more) =>
      var after := Bytes(value) + (FieldBytes(more) + rest);
      assert FieldBytes(fs) + rest == [TypeCode(value)] + (NumBytes(fid, 2) + after);
      TypeNotStop(value);
      HeaderRoundTrip(value, fid, after);
      SkipExactly(value, FieldBytes(more) + rest);
      SkipFieldsExactly(more, rest);
  }

  /** A type code that is none of the ten is not skipped. */
  lemma UnknownTypeFails(ftype: Byte, b: seq<Byte>)
    requires ftype !in [2, 3, 6, 8, 10, 11, 12, 13, 14, 15]
    ensures Skip(ftype, b) == Err
  {
  }

  lemma TypeNotStop(t: Term)
    requires WellTyped(t)
    ensures TypeCode(t) != STOP
  {
  }

  lemma {:induction false} SkipManyExactly(etype: Byte, items: Items, rest: seq<Byte>)
    requires WellTypedItems(etype, items)
    ensures SkipMany(etype, ItemCount(items), ItemBytes(items) + rest) == Ok((), rest)
    decreases items
  {
    hide Skip, Bytes;
    match items
    case NoItem => assert ItemBytes(items) + rest == rest;
    case Item(value, more) =>
      assert ItemBytes(items) + rest == Bytes(value) + (ItemBytes(more) + rest);
      SkipExactly(value, ItemBytes(more) + rest);
      SkipManyExactly(etype, more, rest);
  }

  lemma {:induction false} SkipPairsExactly(ktype: Byte, vtype: Byte, es: Entries, rest: seq<Byte>)
    requires WellTypedEntries(ktype, vtype, es)
    ensures SkipPairs(ktype, vtype, EntryCount(es), EntryBytes(es) + rest) == Ok((), rest)
    decreases es
  {
    hide Skip, Bytes;
    match es
    case NoEntry => assert EntryBytes(es) + rest == rest;
    case Entry(key, value, more) =>
      var after := EntryBytes(more) + rest;
      assert EntryBytes(es) + rest == Bytes(key) + (Bytes(value) + after);
      SkipExactly(key, Bytes(value) + after);
      SkipExactly(value, after);
      SkipPairsExactly(ktype, vtype, more, rest);
  }
}
