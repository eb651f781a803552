/** Encoder and Decoder in the form the program has: objects that write to and read from a stream, field by field. */
module CodecMachine {
  import opened RiftTypes
  import opened Wire
  import opened Schema
  import opened Codec

  // ---- Reading ----

  /** A read that gave x and left the stream at `left` did what the result says. */
  ghost predicate Got<T>(r: Result<T>, x: Option<T>, left: seq<Byte>) {
    if r.Ok? then x == Some(r.value) && left == r.rest else x.None?
  }

  class Decoder {
    var stream: seq<Byte>

    constructor (bytes: seq<Byte>)
      ensures stream == bytes
    {
      stream := bytes;
    }

    method NextByte() returns (x: Option<Byte>)
      modifies this
      ensures Got(ReadByte(old(stream)), x, stream)
    {
      if |stream| == 0 { return None; }
      x := Some(stream[0]);
      stream := stream[1..];
    }

    /** ReadFull of k bytes as a signed big-endian number. */
    method NextNum(k: nat) returns (x: Option<int>)
      modifies this
      ensures Got(ReadNum(old(stream), k), x, stream)
    {
      hide FromBigEndian, Pow256;
      if |stream| < k { return None; }
      x := Some(ToSigned(FromBigEndian(stream[..k]), k));
      stream := stream[k..];
    }

    method NextText() returns (x: Option<seq<Byte>>)
      modifies this
      ensures Got(ReadText(old(stream)), x, stream)
    {
      hide ReadNum;
      var n := NextNum(4);
      if n.None? || n.value < 0 || n.value > MAX_STRING || |stream| < n.value { return None; }
      x := Some(stream[..n.value]);
      stream := stream[n.value..];
    }

    method NextFieldHeader() returns (h: Option<Header>)
      modifies this
      ensures Got(ReadFieldHeader(old(stream)), h, stream)
    {
      hide ReadNum, ReadByte;
      var t := NextByte();
      if t.None? { return None; }
      if t.value == STOP { return Some(Header(STOP, 0)); }
      var fid := NextNum(2);
      if fid.None? { return None; }
      h := Some(Header(t.value, fid.value));
    }

    method NextCount() returns (n: Option<nat>)
      modifies this
      ensures Got(ReadCount(old(stream)), n, stream)
    {
      hide ReadNum;
      var x := NextNum(4);
      if x.None? || x.value < 0 || x.value > MAX_COLLECTION { return None; }
      n := Some(x.value);
    }

    method NextSeqHead() returns (n: Option<nat>)
      modifies this
      ensures Got(ReadSeqHead(old(stream)), n, stream)
    {
      hide ReadCount, ReadByte;
      var t := NextByte();
      if t.None? { return None; }
      n := NextCount();
    }

    method NextMapHead() returns (n: Option<nat>)
      modifies this
      ensures Got(ReadMapHead(old(stream)), n, stream)
    {
      hide ReadSeqHead, ReadByte;
      var t := NextByte();
      if t.None? { return None; }
      n := NextSeqHead();
    }

    // ---- skip ----

    method SkipValue(ftype: Byte) returns (ok: bool)
      modifies this
      ensures Got(Skip(ftype, old(stream)), if ok then Some(()) else None, stream)
      decreases |stream|, 2
    {
      hide ReadNum, ReadByte, ReadText;
      if ftype == BOOL || ftype == BYTE { var x := NextByte(); return x.Some?; }
      if ftype == I16 { var x := NextNum(2); return x.Some?; }
      if ftype == I32 { var x := NextNum(4); return x.Some?; }
      if ftype == I64 { var x := NextNum(8); return x.Some?; }
      if ftype == STRING { var x := NextText(); return x.Some?; }
      if ftype == STRUCT { ok := SkipStruct(); return; }
      if ftype == MAP {
        var kt := NextByte();
        if kt.None? { return false; }
        var vt := NextByte();
        if vt.None? { return false; }
        var n := NextNum(4);
        if n.None? { return false; }
        ok := SkipMapEntries(kt.value, vt.value, n.value);
        return;
      }
      if ftype == SET || ftype == LIST {
        var et := NextByte();
        if et.None? { return false; }
        var n := NextNum(4);
        if n.None? { return false; }
        ok := SkipElements(et.value, n.value);
        return;
      }
      ok := false;
    }

    method SkipStruct() returns (ok: bool)
      modifies this
      ensures Got(SkipFields(old(stream)), if ok then Some(()) else None, stream)
      decreases |stream|, 1
    {
      hide ReadFieldHeader, Skip;
      while true
        invariant SkipFields(stream) == SkipFields(old(stream)) && |stream| <= |old(stream)|
        decreases |stream|
      {
        var h := NextFieldHeader();
        if h.None? { return false; }
        if h.value.ftype == STOP { return true; }
        var skipped := SkipValue(h.value.ftype);
        if !skipped { return false; }
      }
    }

    method SkipElements(etype: Byte, n: int) returns (ok: bool)
      modifies this
      ensures Got(SkipMany(etype, n, old(stream)), if ok then Some(()) else None, stream)
      decreases |stream|, 3
    {
      hide Skip;
      var i := 0;
      while i < n
        invariant SkipMany(etype, n - i, stream) == SkipMany(etype, n, old(stream)) && |stream| <= |old(stream)|
      {
        var skipped := SkipValue(etype);
        if !skipped { return false; }
        i := i + 1;
      }
      ok := true;
    }

    method SkipMapEntries(ktype: Byte, vtype: Byte, n: int) returns (ok: bool)
      modifies this
      ensures Got(SkipPairs(ktype, vtype, n, old(stream)), if ok then Some(()) else None, stream)
      decreases |stream|, 3
    {
      hide Skip;
      var i := 0;
      while i < n
        invariant SkipPairs(ktype, vtype, n - i, stream) == SkipPairs(ktype, vtype, n, old(stream))
        invariant |stream| <= |old(stream)|
      {
        var skipped := SkipValue(ktype);
        if !skipped { return false; }
        skipped := SkipValue(vtype);
        if !skipped { return false; }
        i := i + 1;
      }
      ok := true;
    }

    // ---- decode ----

    method DecodeStruct(s: Name, start: Record) returns (r: Option<Record>)
      modifies this
      ensures Got(DecFields(s, start, old(stream)), r, stream)
      decreases |stream|, 0
    {
      hide ReadFieldHeader, Skip, DecKind, Reads;
      var fields := start;
      while true
        invariant DecFields(s, fields, stream) == DecFields(s, start, old(stream)) && |stream| <= |old(stream)|
        decreases |stream|
      {
        var h := NextFieldHeader();
        if h.None? { return None; }
        if h.value.ftype == STOP { return Some(fields); }
        var kind := Reads(s, h.value.fid);
        if kind.Some? {
          var v := DecodeValue(kind.value, Old(fields, h.value.fid));
          if v.None? { return None; }
          fields := fields[h.value.fid := v.value];
        } else {
          var skipped := SkipValue(h.value.ftype);
          if !skipped { return None; }
        }
      }
    }

    method DecodeNum(k: nat) returns (v: Option<Value>)
      modifies this
      ensures Got(AsNum(ReadNum(old(stream), k)), v, stream)
    {
      hide ReadNum;
      var x := NextNum(k);
      v := if x.Some? then Some(VNum(x.value)) else None;
    }

    method DecodeValue(kind: Kind, prev: Option<Value>) returns (v: Option<Value>)
      modifies this
      ensures Got(DecKind(kind, prev, old(stream)), v, stream)
      decreases |stream|, 1
    {
      hide ReadNum, ReadByte, ReadText, DecFields, DecItems, DecNums, DecPairs, DecEntries, ReadSeqHead, ReadMapHead;
      match kind
      case KBool =>
        var x := NextByte();
        v := if x.Some? then Some(VBool(x.value != 0)) else None;
      case KByte => v := DecodeNum(1);
      case KI16 => v := DecodeNum(2);
      case KI32 => v := DecodeNum(4);
      case KI64 => v := DecodeNum(8);
      case KText =>
        var x := NextText();
        v := if x.Some? then Some(VText(x.value)) else None;
      case KRec(s, inline) =>
        var x := DecodeStruct(s, Into(s, inline, prev));
        v := if x.Some? then Some(VRec(x.value)) else None;
      case KSeqOf(_, elem) =>
        var n := NextSeqHead();
        if n.None? { return None; }
        var x := DecodeItems(elem, n.value);
        v := if x.Some? then Some(VSeq(x.value)) else None;
      case KSetOf(w) =>
        var n := NextSeqHead();
        if n.None? { return None; }
        var x := DecodeNums(w, n.value);
        v := if x.Some? then Some(VSet(x.value)) else None;
      case KPairs(key, val) =>
        var n := NextMapHead();
        if n.None? { return None; }
        var x := DecodePairs(key, val, n.value);
        v := if x.Some? then Some(VPairs(x.value)) else None;
      case KMapOf(w, val, merge) =>
        var n := NextMapHead();
        if n.None? { return None; }
        var x := DecodeEntries(w, val, n.value, Onto(merge, prev));
        v := if x.Some? then Some(VMap(x.value)) else None;
    }

    method DecodeItems(elem: Name, n: nat) returns (items: Option<seq<Value>>)
      modifies this
      ensures Got(DecItems(elem, n, [], old(stream)), items, stream)
      decreases |stream|, 2
    {
      hide DecKind;
      var done: seq<Value> := [];
      for i := 0 to n
        invariant DecItems(elem, n - i, done, stream) == DecItems(elem, n, [], old(stream)) && |stream| <= |old(stream)|
      {
        var v := DecodeValue(KRec(elem, false), None);
        if v.None? { return None; }
        done := done + [v.value];
      }
      items := Some(done);
    }

    method DecodeNums(w: nat, n: nat) returns (elems: Option<set<int>>)
      modifies this
      ensures Got(DecNums(w, n, {}, old(stream)), elems, stream)
    {
      hide ReadNum;
      var done: set<int> := {};
      for i := 0 to n
        invariant DecNums(w, n - i, done, stream) == DecNums(w, n, {}, old(stream))
      {
        var x := NextNum(w);
        if x.None? { return None; }
        done := done + {x.value};
      }
      elems := Some(done);
    }

    method DecodePairs(key: Name, val: Name, n: nat) returns (pairs: Option<seq<Pair>>)
      modifies this
      ensures Got(DecPairs(key, val, n, [], old(stream)), pairs, stream)
      decreases |stream|, 2
    {
      hide DecKind;
      var done: seq<Pair> := [];
      for i := 0 to n
        invariant DecPairs(key, val, n - i, done, stream) == DecPairs(key, val, n, [], old(stream))
        invariant |stream| <= |old(stream)|
      {
        var k := DecodeValue(KRec(key, false), None);
        if k.None? { return None; }
        var v := DecodeValue(KRec(val, false), None);
        if v.None? { return None; }
        done := done + [Pair(k.value, v.value)];
      }
      pairs := Some(done);
    }

    method DecodeEntries(w: nat, val: Name, n: nat, start: map<int, Value>) returns (entries: Option<map<int, Value>>)
      modifies this
      ensures Got(DecEntries(w, val, n, start, old(stream)), entries, stream)
      decreases |stream|, 2
    {
      hide DecKind, ReadNum;
      var done := start;
      for i := 0 to n
        invariant DecEntries(w, val, n - i, done, stream) == DecEntries(w, val, n, start, old(stream))
        invariant |stream| <= |old(stream)|
      {
        var k := NextNum(w);
        if k.None? { return None; }
        var v := DecodeValue(KRec(val, false), None);
        if v.None? { return None; }
        done := done[k.value := v.value];
      }
      entries := Some(done);
    }

    method DecodeProtocolPacket() returns (packet: Option<Record>)
      modifies this
      ensures Got(DecodePacket(old(stream)), packet, stream)
    {
      packet := DecodeStruct(ProtocolPacket, Init(ProtocolPacket));
    }
  }
}
