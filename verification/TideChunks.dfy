/** TIDE packets: the pieces a sorted header list is cut into, and how they tile the identity space. */
module TideChunks {
  import opened RiftTypes
  import opened Lsdb

  const MAX_TIDE_HEADERS := 25

  datatype Tide = Tide(start: TIEID, end: TIEID, headers: seq<HeaderWithLifetime>)

  function IDOf(h: HeaderWithLifetime): TIEID { h.header.id }

  ghost predicate SortedHeaders(hs: seq<HeaderWithLifetime>) {
    forall i, j :: 0 <= i < j < |hs| ==> Precedes(IDOf(hs[i]), IDOf(hs[j]))
  }

  predicate InFullRange(id: TIEID) { UpTo(MIN_TIEID, id) && UpTo(id, MAX_TIEID) }

  predicate InRange(t: Tide, id: TIEID) { UpTo(t.start, id) && UpTo(id, t.end) }

  function Concat(chunks: seq<Tide>): seq<HeaderWithLifetime> {
    if chunks == [] then [] else Concat(chunks[..|chunks| - 1]) + chunks[|chunks| - 1].headers
  }

  /** Each piece begins where the previous one ends, the first at the least identity. */
  ghost predicate Chained(chunks: seq<Tide>) {
    && (chunks != [] ==> chunks[0].start == MIN_TIEID)
    && forall i :: 0 < i < |chunks| ==> chunks[i].start == chunks[i - 1].end
  }

  ghost predicate Inside(t: Tide) {
    forall h :: h in t.headers ==> InRange(t, IDOf(h))
  }

  /** Every piece but an only one lists something, and all but the last are full. */
  ghost predicate Filled(chunks: seq<Tide>) {
    && (forall i :: 0 <= i < |chunks| ==> |chunks[i].headers| <= MAX_TIDE_HEADERS)
    && (forall i :: 0 <= i < |chunks| - 1 ==> |chunks[i].headers| == MAX_TIDE_HEADERS)
    && (|chunks| > 1 ==> chunks[|chunks| - 1].headers != [])
  }

  /** All but the last piece end at the last identity they list. */
  ghost predicate EndsAtLast(chunks: seq<Tide>) {
    forall i :: 0 <= i < |chunks| - 1 ==> EndListed(chunks[i])
  }

  ghost predicate EndListed(t: Tide) {
    t.headers != [] && t.end == IDOf(t.headers[|t.headers| - 1])
  }

  ghost predicate Tiling(headers: seq<HeaderWithLifetime>, chunks: seq<Tide>) {
    && chunks != [] && Chained(chunks) && chunks[|chunks| - 1].end == MAX_TIEID
    && Concat(chunks) == headers && Filled(chunks) && EndsAtLast(chunks)
  }

  ghost predicate Listable(headers: seq<HeaderWithLifetime>) {
    SortedHeaders(headers) && forall h :: h in headers ==> InFullRange(IDOf(h))
  }

  /** In numbers: at most 25 headers a piece, exactly 25 in all but the last, from the least identity to the largest. */
  lemma PieceLimits(headers: seq<HeaderWithLifetime>, chunks: seq<Tide>, i: nat)
    requires Tiling(headers, chunks) && i < |chunks|
    ensures |chunks[i].headers| <= 25 && (i < |chunks| - 1 ==> |chunks[i].headers| == 25)
    ensures i == 0 ==> chunks[i].start == TIEID(1, 0, 0, 0)
    ensures i == |chunks| - 1 ==> chunks[i].end == TIEID(3, 0x7FFF_FFFF_FFFF_FFFF, 10, 0x7FFF_FFFF)
  {
    hide Concat;
  }

  /** The pieces that cover the first `start` headers. */
  ghost predicate CutUpTo(headers: seq<HeaderWithLifetime>, start: nat, chunks: seq<Tide>)
    requires start <= |headers|
  {
    && (chunks == [] <==> start == 0)
    && Chained(chunks) && Concat(chunks) == headers[..start]
    && (forall i :: 0 <= i < |chunks| ==> 0 < |chunks[i].headers| <= MAX_TIDE_HEADERS)
    && (forall i :: 0 <= i < |chunks| && (i < |chunks| - 1 || start < |headers|) ==>
      |chunks[i].headers| == MAX_TIDE_HEADERS)
    && (chunks != [] ==> chunks[|chunks| - 1].end == EndOfPiece(headers, start))
    && EndsAtLast(chunks) && (chunks != [] && start < |headers| ==> EndListed(chunks[|chunks| - 1]))
  }

  function EndOfPiece(headers: seq<HeaderWithLifetime>, end: nat): TIEID
    requires 0 < end <= |headers|
  {
    if end == |headers| then MAX_TIEID else IDOf(headers[end - 1])
  }

  function StartOfPiece(headers: seq<HeaderWithLifetime>, start: nat): TIEID
    requires start < |headers|
  {
    if start == 0 then MIN_TIEID else EndOfPiece(headers, start)
  }

  /**
   * buildTIDEChunks: tiles the identity space on any list; on a sorted in-range list every header lies in its own
   * piece.
   */
  method BuildTIDEChunks(headers: seq<HeaderWithLifetime>) returns (chunks: seq<Tide>)
    ensures Tiling(headers, chunks)
    ensures Listable(headers) ==> forall t :: t in chunks ==> Inside(t)
  {
    hide Listable, Inside, Tiling, CutUpTo, CompareTIEID;
    StartsUncut(headers);
    if headers == [] {
      chunks := [Tide(MIN_TIEID, MAX_TIEID, [])];
      NothingListed();
      return;
    }
    chunks := [];
    var start := 0;
    while start < |headers|
      invariant 0 <= start <= |headers|
      invariant CutUpTo(headers, start, chunks)
      invariant Listable(headers) ==> forall t :: t in chunks ==> Inside(t)
    {
      var end := start + MAX_TIDE_HEADERS;
      if end > |headers| { end := |headers|; }
      var startRange := MIN_TIEID;
      if |chunks| > 0 { startRange := chunks[|chunks| - 1].end; }
      var endRange := IDOf(headers[end - 1]);
      if end == |headers| { endRange := MAX_TIEID; }
      var piece := Tide(startRange, endRange, headers[start..end]);
      OnePieceMore(headers, start, end, chunks, piece);
      if Listable(headers) { PieceInside(headers, start, end, piece); }
      chunks := chunks + [piece];
      start := end;
    }
    AllCut(headers, chunks);
  }

  lemma NothingListed()
    ensures Tiling([], [Tide(MIN_TIEID, MAX_TIEID, [])]) && Inside(Tide(MIN_TIEID, MAX_TIEID, []))
  {
    var only := [Tide(MIN_TIEID, MAX_TIEID, [])];
    assert only[..0] == [] && Concat(only) == [] + only[0].headers;
  }

  lemma StartsUncut(headers: seq<HeaderWithLifetime>)
    ensures CutUpTo(headers, 0, [])
  {
  }

  lemma AllCut(headers: seq<HeaderWithLifetime>, chunks: seq<Tide>)
    requires headers != [] && CutUpTo(headers, |headers|, chunks)
    ensures Tiling(headers, chunks)
  {
    assert headers[..|headers|] == headers;
  }

  lemma OnePieceMore(headers: seq<HeaderWithLifetime>, start: nat, end: nat, chunks: seq<Tide>, t: Tide)
    requires start < end <= |headers|
    requires end == start + MAX_TIDE_HEADERS || (end < start + MAX_TIDE_HEADERS && end == |headers|)
    requires CutUpTo(headers, start, chunks)
    requires t == Tide(if |chunks| > 0 then chunks[|chunks| - 1].end
      else MIN_TIEID, EndOfPiece(headers, end), headers[start..end])
    ensures CutUpTo(headers, end, chunks + [t])
    ensures t.start == StartOfPiece(headers, start)
  {
    assert (chunks + [t])[..|chunks|] == chunks;
    assert headers[..start] + headers[start..end] == headers[..end];
  }

  lemma PieceInside(headers: seq<HeaderWithLifetime>, start: nat, end: nat, t: Tide)
    requires Listable(headers) && start < end <= |headers| && t.headers == headers[start..end]
    requires t.start == StartOfPiece(headers, start) && t.end == EndOfPiece(headers, end)
    ensures Inside(t)
  {
    hide CompareTIEID;
    forall i | start <= i < end ensures InRange(t, IDOf(headers[i])) {
      assert headers[i] in headers;
      TIEIDTotalOrder(IDOf(headers[i]), IDOf(headers[end - 1]), MAX_TIEID);
    }
  }

  // ---- What a tiling gives the receiver ----

  lemma ConcatHas(chunks: seq<Tide>, h: HeaderWithLifetime)
    ensures h in Concat(chunks) <==> exists i :: 0 <= i < |chunks| && h in chunks[i].headers
  {
    if chunks != [] {
      var init := chunks[..|chunks| - 1];
      ConcatHas(init, h);
      assert forall i :: 0 <= i < |init| ==> init[i] == chunks[i];
    }
  }

  /** No gap: every identity from the least to the greatest lies in some piece. */
  lemma {:induction false} Covered(chunks: seq<Tide>, id: TIEID) returns (i: nat)
    requires chunks != [] && Chained(chunks) && UpTo(MIN_TIEID, id) && UpTo(id, chunks[|chunks| - 1].end)
    ensures i < |chunks| && InRange(chunks[i], id)
  {
    hide CompareTIEID;
    var n := |chunks| - 1;
    if n == 0 || UpTo(chunks[n].start, id) {
      i := n;
    } else {
      var init := chunks[..n];
      TIEIDTotalOrder(id, chunks[n].start, id);
      i := Covered(init, id);
    }
  }

  ghost predicate Spans(t: Tide) { UpTo(t.start, t.end) }

  lemma {:induction false} EndsBeforeStart(chunks: seq<Tide>, i: nat, j: nat)
    requires Chained(chunks) && i < j < |chunks| && forall t :: t in chunks ==> Spans(t)
    ensures UpTo(chunks[i].end, chunks[j].start)
  {
    hide CompareTIEID;
    if i + 1 == j {
      TIEIDTotalOrder(chunks[i].end, chunks[i].end, chunks[i].end);
    } else {
      EndsBeforeStart(chunks, i, j - 1);
      assert chunks[j - 1] in chunks;
      TIEIDTotalOrder(chunks[i].end, chunks[j - 1].start, chunks[j].start);
    }
  }

  /** Two pieces share at most one identity, the end of the earlier one. */
  lemma OverlapIsBoundary(chunks: seq<Tide>, i: nat, j: nat, id: TIEID)
    requires Chained(chunks) && i < j < |chunks| && forall t :: t in chunks ==> Spans(t)
    requires InRange(chunks[i], id) && InRange(chunks[j], id)
    ensures id == chunks[i].end == chunks[j].start
  {
    hide CompareTIEID;
    EndsBeforeStart(chunks, i, j);
    TIEIDTotalOrder(chunks[i].end, chunks[j].start, id);
    TIEIDTotalOrder(id, chunks[i].end, id);
    TIEIDTotalOrder(id, chunks[i].end, chunks[j].start);
    TIEIDTotalOrder(chunks[j].start, id, id);
  }

  lemma InsideSpans(t: Tide)
    requires Inside(t) && t.headers != []
    ensures Spans(t)
  {
    hide CompareTIEID;
    var h := t.headers[0];
    assert h in t.headers;
    TIEIDTotalOrder(t.start, IDOf(h), t.end);
  }
}
