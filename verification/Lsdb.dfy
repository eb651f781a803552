/** TIE identities and headers in order, and the link-state database. */
module Lsdb {
  import opened RiftTypes

  function Compare(a: int, b: int): int {
    if a < b then -1 else if a > b then 1 else 0
  }

  function CompareTIEID(a: TIEID, b: TIEID): int {
    if a.direction != b.direction then Compare(a.direction, b.direction)
    else if a.originator != b.originator then Compare(a.originator, b.originator)
    else if a.tieType != b.tieType then Compare(a.tieType, b.tieType)
    else Compare(a.tieNr, b.tieNr)
  }

  predicate Precedes(a: TIEID, b: TIEID) { CompareTIEID(a, b) < 0 }
  predicate UpTo(a: TIEID, b: TIEID) { CompareTIEID(a, b) <= 0 }

  const MIN_TIEID := TIEID(SOUTH, 0, 0, 0)
  const MAX_TIEID := TIEID(DIRECTION_MAX, 0x7FFF_FFFF_FFFF_FFFF, TIE_TYPE_MAX, 0x7FFF_FFFF)

  /** CompareTIEID is a strict total order: sign-symmetric, zero only on equal identities, transitive. */
  lemma TIEIDTotalOrder(a: TIEID, b: TIEID, c: TIEID)
    ensures CompareTIEID(a, b) == -CompareTIEID(b, a)
    ensures CompareTIEID(a, b) == 0 <==> a == b
    ensures UpTo(a, b) && UpTo(b, c) ==> UpTo(a, c)
    ensures Precedes(a, b) && UpTo(b, c) ==> Precedes(a, c)
    ensures UpTo(a, b) && Precedes(b, c) ==> Precedes(a, c)
  {
  }

  /** The order is lexicographic: direction, then originator, then type, then number. */
  lemma TIEIDLexicographic(a: TIEID, b: TIEID)
    ensures CompareTIEID(a, b) < 0 <==>
              || a.direction < b.direction
              || (a.direction == b.direction && a.originator < b.originator)
              || (a.direction == b.direction && a.originator == b.originator && a.tieType < b.tieType)
              || (a.direction == b.direction && a.originator == b.originator && a.tieType == b.tieType
                  && a.tieNr < b.tieNr)
    ensures MIN_TIEID == TIEID(1, 0, 0, 0) && MAX_TIEID == TIEID(3, 0x7FFF_FFFF_FFFF_FFFF, 10, 0x7FFF_FFFF)
  {
  }

  function Abs32(x: int): int { if x < 0 then Wrap32(-x) else x }

  /** Sequence number first; lifetimes count only when they differ by more than the tolerance. */
  function CompareTIEHeader(a: HeaderWithLifetime, b: HeaderWithLifetime): int {
    if a.header.seqNr != b.header.seqNr then Compare(a.header.seqNr, b.header.seqNr)
    else if Abs32(Wrap32(a.lifetime - b.lifetime)) > LIFETIME_DIFF_TO_IGNORE then Compare(a.lifetime, b.lifetime)
    else 0
  }

  /** A header that is not newer never carries a higher sequence number, and conversely. */
  lemma HeaderOrder(a: HeaderWithLifetime, b: HeaderWithLifetime)
    ensures CompareTIEHeader(a, b) > 0 ==> a.header.seqNr >= b.header.seqNr
    ensures CompareTIEHeader(a, b) <= 0 ==> a.header.seqNr <= b.header.seqNr
    ensures a.header.seqNr > b.header.seqNr ==> CompareTIEHeader(a, b) > 0
    ensures a.header.seqNr < b.header.seqNr ==> CompareTIEHeader(a, b) < 0
  {
  }

  /** Equality up to the tolerance is not transitive. */
  lemma HeaderEqualityNotTransitive() returns (a: HeaderWithLifetime, b: HeaderWithLifetime, c: HeaderWithLifetime)
    ensures CompareTIEHeader(a, b) == 0 && CompareTIEHeader(b, c) == 0 && CompareTIEHeader(a, c) != 0
  {
    var h := TIEHeader(MIN_TIEID, 1, None);
    a, b, c := HeaderWithLifetime(h, 0), HeaderWithLifetime(h, 400), HeaderWithLifetime(h, 800);
  }

  // The difference of two int32 lifetimes may wrap, and the least int32 is its own negation.
  predicate WithinTolerance(d: int) {
    -LIFETIME_DIFF_TO_IGNORE <= d <= LIFETIME_DIFF_TO_IGNORE || d == MIN32 || d == -MIN32
    || d >= 0x1_0000_0000 - LIFETIME_DIFF_TO_IGNORE || d <= LIFETIME_DIFF_TO_IGNORE - 0x1_0000_0000
  }

  /** Which headers are equal, for all int32 lifetimes; when none is negative, those at most 400 seconds apart. */
  lemma HeadersEqualExactly(a: HeaderWithLifetime, b: HeaderWithLifetime)
    requires MIN32 <= a.lifetime <= MAX32 && MIN32 <= b.lifetime <= MAX32
    ensures CompareTIEHeader(a, b) == 0 <==>
              a.header.seqNr == b.header.seqNr && WithinTolerance(a.lifetime - b.lifetime)
    ensures 0 <= a.lifetime && 0 <= b.lifetime ==>
              (WithinTolerance(a.lifetime - b.lifetime) <==>
               -LIFETIME_DIFF_TO_IGNORE <= a.lifetime - b.lifetime <= LIFETIME_DIFF_TO_IGNORE)
  {
    var d := a.lifetime - b.lifetime;
    assert Wrap32(d) == if d > MAX32 then d - 0x1_0000_0000 else if d < MIN32 then d + 0x1_0000_0000 else d;
    assert Wrap32(-MIN32) == MIN32;
  }

  /** Which header is newer, for all lifetimes that are not negative: the higher number, or 400 seconds more to live. */
  lemma HeaderNewerExactly(a: HeaderWithLifetime, b: HeaderWithLifetime)
    requires 0 <= a.lifetime <= MAX32 && 0 <= b.lifetime <= MAX32
    ensures CompareTIEHeader(a, b) > 0 <==>
              a.header.seqNr > b.header.seqNr
              || (a.header.seqNr == b.header.seqNr && a.lifetime > b.lifetime + 400)
    ensures CompareTIEHeader(a, b) < 0 <==> CompareTIEHeader(b, a) > 0
  {
  }

  /**
   * Equality carries over from a to c by way of b exactly when the lifetimes of a and c are themselves within the
   * tolerance.
   */
  lemma HeaderEqualityTransitiveExactly(a: HeaderWithLifetime, b: HeaderWithLifetime, c: HeaderWithLifetime)
    requires MIN32 <= a.lifetime <= MAX32 && MIN32 <= b.lifetime <= MAX32 && MIN32 <= c.lifetime <= MAX32
    requires CompareTIEHeader(a, b) == 0 && CompareTIEHeader(b, c) == 0
    ensures CompareTIEHeader(a, c) == 0 <==> WithinTolerance(a.lifetime - c.lifetime)
  {
    hide CompareTIEHeader, WithinTolerance;
    HeadersEqualExactly(a, b);
    HeadersEqualExactly(b, c);
    HeadersEqualExactly(a, c);
  }

  ghost predicate StrictlySorted(ids: seq<TIEID>) {
    forall i, j :: 0 <= i < j < |ids| ==> Precedes(ids[i], ids[j])
  }

  type Entries = map<TIEID, Entry>

  /** Every entry is filed under the identity in its own header. */
  ghost predicate Filed(entries: Entries) {
    forall id :: id in entries ==> entries[id].packet.header.id == id
  }

  /** The least identity of a non-empty set. */
  method Least(ids: set<TIEID>) returns (least: TIEID)
    requires ids != {}
    ensures least in ids && forall id :: id in ids ==> UpTo(least, id)
  {
    least :| least in ids;
    var todo := ids - {least};
    while todo != {}
      invariant todo < ids && least in ids
      invariant forall id :: id in ids && id !in todo ==> UpTo(least, id)
    {
      var id :| id in todo;
      todo := todo - {id};
      forall x | x in ids { TIEIDTotalOrder(id, least, x); }
      if CompareTIEID(id, least) < 0 { least := id; }
    }
  }

  /** The identities of the database in TIEID order, as sort.Slice leaves them. */
  method SortedIDs(ids: set<TIEID>) returns (sorted: seq<TIEID>)
    ensures StrictlySorted(sorted) && Elements(sorted) == ids
  {
    sorted := [];
    var todo := ids;
    while todo != {}
      invariant todo <= ids && Elements(sorted) == ids - todo
      invariant StrictlySorted(sorted)
      invariant forall i, id :: 0 <= i < |sorted| && id in todo ==> Precedes(sorted[i], id)
    {
      var id := Least(todo);
      forall x | x in todo && x != id ensures Precedes(id, x) { TIEIDTotalOrder(id, x, x); }
      assert Elements(sorted + [id]) == Elements(sorted) + {id};
      sorted := sorted + [id];
      todo := todo - {id};
    }
  }

  /** What one second does to a remaining lifetime, in int32. */
  function Aged(e: Entry, delta: int): Entry { e.(lifetime := Wrap32(e.lifetime - delta)) }

  class Database {
    var entries: Entries

    constructor ()
      ensures entries == map[]
    {
      entries := map[];
    }

    method Get(id: TIEID) returns (e: Option<Entry>)
      ensures e == if id in entries then Some(entries[id]) else None
    {
      if id in entries { e := Some(entries[id]); } else { e := None; }
    }

    /** Files an entry under its own identity, and says whether there was none. */
    method Insert(e: Entry) returns (isNew: bool)
      modifies this
      ensures entries == old(entries)[e.packet.header.id := e]
      ensures isNew <==> e.packet.header.id !in old(entries)
    {
      isNew := e.packet.header.id !in entries;
      entries := entries[e.packet.header.id := e];
    }

    method Remove(id: TIEID)
      modifies this
      ensures entries == old(entries) - {id}
    {
      entries := entries - {id};
    }

    /** Ages every entry and reports those that reached zero. */
    method DecrementLifetimes(delta: int) returns (expired: seq<TIEID>)
      modifies this
      ensures entries == map id | id in old(entries) :: Aged(old(entries)[id], delta)
      ensures Elements(expired) == set id | id in entries && entries[id].lifetime <= 0
    {
      expired := [];
      var todo := entries.Keys;
      while todo != {}
        invariant todo <= entries.Keys == old(entries).Keys
        invariant forall id :: id in entries ==>
                    entries[id] == if id in todo then old(entries)[id] else Aged(old(entries)[id], delta)
        invariant forall id :: id in expired <==> id in entries && id !in todo && entries[id].lifetime <= 0
      {
        var id :| id in todo;
        todo := todo - {id};
        entries := entries[id := Aged(entries[id], delta)];
        if entries[id].lifetime <= 0 { expired := expired + [id]; }
      }
    }
  }
}
