/** Flow result pages: the client's window (internal/velociraptor/grpcclient_flows.go:241-271), the
handler's byte bound (internal/mcpserver/tools_flows.go:286-374), and what a caller gets who
follows the cursors. */
module Paging {
  import opened Text
  import opened Cursors

  const DEFAULT_ROWS := 100
  const DEFAULT_BYTES := 1048576

  /** `boundLimit` and `boundToolLimit`, which have the same body and the same default. */
  function BoundLimit(requested: int, ceiling: int): (n: int)
    ensures n >= 1 && n <= (if ceiling <= 0 then DEFAULT_ROWS else ceiling)
    ensures requested > 0 ==> n <= requested
    ensures 0 < requested <= (if ceiling <= 0 then DEFAULT_ROWS else ceiling) <==> n == requested
    ensures requested <= 0 ==> n == if ceiling <= 0 then DEFAULT_ROWS else ceiling
  {
    var c := if ceiling <= 0 then DEFAULT_ROWS else ceiling;
    if requested <= 0 || requested > c then c else requested
  }

  // ----- the byte bound

  /** The encoded length of a run of rows. */
  function Total<Row>(size: Row -> nat, rows: seq<Row>): (n: nat) {
    if rows == [] then 0 else Total(size, rows[..|rows| - 1]) + size(rows[|rows| - 1])
  }

  lemma {:induction false} TotalGrows<Row>(size: Row -> nat, rows: seq<Row>, i: nat, j: nat)
    requires i <= j <= |rows|
    ensures Total(size, rows[..i]) <= Total(size, rows[..j])
    decreases j
  {
    if i < j {
      TotalGrows(size, rows, i, j - 1);
      assert rows[..j][..j - 1] == rows[..j - 1];
    }
  }

  /** The first `k` rows respect both limits. */
  predicate Fits<Row>(size: Row -> nat, rows: seq<Row>, limit: int, maxBytes: int, k: nat)
    requires k <= |rows|
  {
    k <= limit && Total(size, rows[..k]) <= maxBytes
  }

  /** `boundRowsByLimitAndBytes`: the longest prefix within both limits; truncated exactly when
      that prefix is strict. */
  method BoundRows<Row>(size: Row -> nat, rows: seq<Row>, limit: int, maxBytes: int)
    returns (out: seq<Row>, total: int, truncated: bool)
    ensures |out| <= |rows| && out == rows[..|out|] && total == Total(size, out)
    ensures |out| <= (if limit > 0 then limit else 100) && total <= (if maxBytes > 0 then maxBytes else 1048576)
    ensures forall k: nat | |out| < k <= |rows| ::
        k > (if limit > 0 then limit else 100) || Total(size, rows[..k]) > (if maxBytes > 0 then maxBytes else 1048576)
    ensures truncated <==> |out| < |rows|
  {
    var lim := if limit <= 0 then DEFAULT_ROWS else limit;
    var max := if maxBytes <= 0 then DEFAULT_BYTES else maxBytes;
    out, total := [], 0;
    truncated := |rows| > lim;
    var i := 0;
    while i < |rows|
      invariant 0 <= i <= |rows| && out == rows[..i] && total == Total(size, out)
      invariant i <= lim && total <= max
      invariant truncated <==> |rows| > lim
    {
      if |out| >= lim {
        truncated := true;
        break;
      }
      var rowBytes := size(rows[i]);
      assert rows[..i + 1][..i] == rows[..i];
      if total + rowBytes > max {
        truncated := true;
        forall k: nat | i < k <= |rows| ensures Total(size, rows[..k]) > max { TotalGrows(size, rows, i + 1, k); }
        break;
      }
      out := out + [rows[i]];
      total := total + rowBytes;
      i := i + 1;
    }
  }

  predicate TooMuch<Row>(size: Row -> nat, rows: seq<Row>, maxBytes: int, j: nat) {
    j <= |rows| && Total(size, rows[..j]) > maxBytes
  }

  /** `k` rows is the most that fits. */
  predicate MostThatFits<Row>(size: Row -> nat, rows: seq<Row>, maxBytes: int, k: nat) {
    && k <= |rows| && (k > 0 ==> !TooMuch(size, rows, maxBytes, k))
    && forall j: nat | k < j <= |rows| :: TooMuch(size, rows, maxBytes, j)
  }

  lemma {:induction false} MostExists<Row>(size: Row -> nat, rows: seq<Row>, maxBytes: int, n: nat)
    requires n <= |rows| && forall j: nat | n < j <= |rows| :: TooMuch(size, rows, maxBytes, j)
    ensures exists k: nat :: k <= |rows| && MostThatFits(size, rows, maxBytes, k)
    decreases n
  {
    if n > 0 && TooMuch(size, rows, maxBytes, n) {
      MostExists(size, rows, maxBytes, n - 1);
    } else {
      assert MostThatFits(size, rows, maxBytes, n);
    }
  }

  /** How many rows the byte limit keeps. */
  function FitCount<Row>(size: Row -> nat, rows: seq<Row>, maxBytes: int): (k: nat)
    ensures MostThatFits(size, rows, maxBytes, k)
  {
    MostExists(size, rows, maxBytes, |rows|);
    var k: nat :| k <= |rows| && MostThatFits(size, rows, maxBytes, k);
    k
  }

  // ----- one page

  /** A conforming server's answer to (start, count). */
  function Window<Row>(rows: seq<Row>, start: nat, count: nat): (w: seq<Row>)
    ensures |w| == if start >= |rows| then 0 else if start + count <= |rows| then count else |rows| - start
  {
    if start >= |rows| then [] else if start + count <= |rows| then rows[start..start + count] else rows[start..]
  }

  datatype Page<Row> = Page(rows: seq<Row>, truncated: bool, next: string)

  /** `GetFlowResults` against that server, with `bounded` the client's row bound. */
  function ClientPage<Row>(rows: seq<Row>, bounded: nat, cursor: string): (p: Page<Row>) {
    var start := ParseOffset(cursor);
    var got := Window(rows, start, bounded);
    var truncated := |got| >= bounded && (|rows| == 0 || start + |got| < |rows|);
    Page(got, truncated, if truncated then OffsetCursor(start + |got|) else "")
  }

  /** The flow-results handler on top of it. */
  method HandlerPage<Row>(size: Row -> nat, rows: seq<Row>, requested: int, toolMax: int, clientMax: int,
                          maxBytes: int, cursor: string)
    returns (page: Page<Row>)
    ensures page == ToolPage(size, rows, BoundLimit(BoundLimit(requested, toolMax), clientMax),
                             if maxBytes > 0 then maxBytes else 1048576, cursor)
  {
    var limit := BoundLimit(requested, toolMax);
    var bounded := BoundLimit(limit, if clientMax > 0 then clientMax else DEFAULT_ROWS);
    var client := ClientPage(rows, bounded, cursor);
    var out, total, cut := BoundRows(size, client.rows, limit, maxBytes);
    var truncated := client.truncated || cut;
    var next := client.next;
    if next == "" { next := NextOffsetCursor(cursor, |out|, truncated); }
    OneBound(size, client.rows, limit, if maxBytes > 0 then maxBytes else 1048576, |out|);
    return Page(out, truncated, next);
  }

  /** The window never exceeds the row limit, so only the byte limit decides what is kept. */
  lemma OneBound<Row>(size: Row -> nat, got: seq<Row>, limit: int, maxBytes: int, k: nat)
    requires k <= |got| <= limit && Fits(size, got, limit, maxBytes, k) && maxBytes > 0
    requires forall j: nat | k < j <= |got| :: !Fits(size, got, limit, maxBytes, j)
    ensures k == FitCount(size, got, maxBytes)
  {
    var n := FitCount(size, got, maxBytes);
    assert k < n ==> !Fits(size, got, limit, maxBytes, n);
    assert n < k ==> TooMuch(size, got, maxBytes, k);
  }

  /** What the handler returns for a page of at most `bounded` rows and `maxBytes` bytes. */
  function ToolPage<Row>(size: Row -> nat, rows: seq<Row>, bounded: nat, maxBytes: int,
                         cursor: string): (p: Page<Row>) {
    var client := ClientPage(rows, bounded, cursor);
    var k := FitCount(size, client.rows, maxBytes);
    var truncated := client.truncated || k < |client.rows|;
    Page(client.rows[..k], truncated, if client.next != "" then client.next else NextOffsetCursor(cursor, k, truncated))
  }

  /** A page that is not flagged truncated ends with the last row. */
  lemma UntruncatedReachesEnd<Row>(size: Row -> nat, rows: seq<Row>, bounded: nat, maxBytes: int, cursor: string)
    requires bounded >= 1 && ParseOffset(cursor) <= |rows|
    ensures var p := ToolPage(size, rows, bounded, maxBytes, cursor);
            !p.truncated ==> p.rows == rows[ParseOffset(cursor)..] && p.next == ""
  {
  }

  /** The flag says exactly whether rows remain behind the ones returned, on every page of every cursor. */
  lemma FlagTellsRowsRemain<Row>(size: Row -> nat, rows: seq<Row>, bounded: nat, maxBytes: int, cursor: string)
    requires bounded >= 1
    ensures var p := ToolPage(size, rows, bounded, maxBytes, cursor);
            p.truncated <==> ParseOffset(cursor) + |p.rows| < |rows|
  {
  }

  // ----- following the cursors

  /** The page at offset `p` keeps this many rows, the ones from `p` on. */
  function Count<Row>(size: Row -> nat, rows: seq<Row>, bounded: nat, maxBytes: int, p: nat): (k: nat)
    ensures k <= bounded && (p <= |rows| ==> p + k <= |rows|)
  {
    FitCount(size, Window(rows, p, bounded), maxBytes)
  }

  /** A reading of `total` rows in windows of `bounded`, where the page at `p` keeps `count(p)` rows. */
  datatype Reading = Reading(total: nat, bounded: nat, count: nat -> nat)

  ghost predicate Sane(r: Reading) {
    r.bounded >= 1 && forall p: nat :: r.count(p) <= r.bounded && (p <= r.total ==> p + r.count(p) <= r.total)
  }

  /** The offset of the next page, or None when the reading stops. */
  function NextOffset(r: Reading, p: nat): (n: Option<nat>) {
    if p + r.bounded < r.total then Some(p + r.bounded)
    else if p < r.total && 0 < r.count(p) < r.total - p then Some(p + r.count(p))
    else None
  }

  function Flow<Row>(size: Row -> nat, rows: seq<Row>, bounded: nat, maxBytes: int): (r: Reading) {
    Reading(|rows|, bounded, p => Count(size, rows, bounded, maxBytes, p))
  }

  lemma ClientPageAt<Row>(rows: seq<Row>, bounded: nat, cursor: string)
    requires bounded >= 1 && ParseOffset(cursor) <= |rows|
    ensures var p, page := ParseOffset(cursor), ClientPage(rows, bounded, cursor);
            && page.rows == Window(rows, p, bounded)
            && page.truncated == (p + bounded < |rows|)
            && page.next == if p + bounded < |rows| then OffsetCursor(p + bounded) else ""
  {
  }

  lemma NextAt<Row>(size: Row -> nat, rows: seq<Row>, bounded: nat, maxBytes: int, cursor: string)
    requires bounded >= 1 && ParseOffset(cursor) <= |rows|
    ensures var n := NextOffset(Flow(size, rows, bounded, maxBytes), ParseOffset(cursor));
            ToolPage(size, rows, bounded, maxBytes, cursor).next == if n.None? then "" else OffsetCursor(n.value)
  {
    var p := ParseOffset(cursor);
    ClientPageAt(rows, bounded, cursor);
    ReadersAgree(cursor);
    assert OffsetCursor(p + bounded) != "";
  }

  lemma RowsAt<Row>(size: Row -> nat, rows: seq<Row>, bounded: nat, maxBytes: int, cursor: string)
    requires bounded >= 1 && ParseOffset(cursor) <= |rows|
    ensures var p := ParseOffset(cursor);
            ToolPage(size, rows, bounded, maxBytes, cursor).rows == rows[p..p + Count(size, rows, bounded, maxBytes, p)]
  {
    var p := ParseOffset(cursor);
    var k := Count(size, rows, bounded, maxBytes, p);
    assert Window(rows, p, bounded)[..k] == rows[p..p + k];
  }

  /** The page at a cursor is the page at its offset, and its cursor is the next offset printed. */
  lemma PageAtOffset<Row>(size: Row -> nat, rows: seq<Row>, bounded: nat, maxBytes: int, cursor: string)
    requires bounded >= 1 && ParseOffset(cursor) <= |rows| <= MAX_INT
    ensures var p, page := ParseOffset(cursor), ToolPage(size, rows, bounded, maxBytes, cursor);
            var k, n := Count(size, rows, bounded, maxBytes, p), NextOffset(Flow(size, rows, bounded, maxBytes), p);
            && page.rows == rows[p..p + k]
            && (n.None? ==> page.next == "")
            && (n.Some? ==> page.next != "" && ParseOffset(page.next) == n.value && p < n.value <= |rows|)
  {
    RowsAt(size, rows, bounded, maxBytes, cursor);
    NextAt(size, rows, bounded, maxBytes, cursor);
    var n := NextOffset(Flow(size, rows, bounded, maxBytes), ParseOffset(cursor));
    if n.Some? { CursorRoundTrip(n.value); }
  }

  /** The numbers of the rows delivered to a caller who starts at `cursor` and follows the cursors. */
  function Delivered<Row>(size: Row -> nat, rows: seq<Row>, bounded: nat, maxBytes: int,
                          cursor: string): (ids: seq<int>)
    requires bounded >= 1 && |rows| <= MAX_INT && ParseOffset(cursor) <= |rows|
    decreases |rows| - ParseOffset(cursor)
  {
    PageAtOffset(size, rows, bounded, maxBytes, cursor);
    var p, page := ParseOffset(cursor), ToolPage(size, rows, bounded, maxBytes, cursor);
    Range(p, p + |page.rows|) + (if page.next == "" then [] else Delivered(size, rows, bounded, maxBytes, page.next))
  }

  function Range(lo: nat, hi: nat): (r: seq<int>)
    requires lo <= hi
    ensures |r| == hi - lo && forall i | 0 <= i < |r| :: r[i] == lo + i
  {
    seq(hi - lo, i => lo + i)
  }

  /** The same in terms of offsets only. */
  ghost function DeliveredFrom(r: Reading, p: nat): (ids: seq<int>)
    requires Sane(r) && p <= r.total
    decreases r.total - p
  {
    var n := NextOffset(r, p);
    Range(p, p + r.count(p)) + (if n.None? then [] else DeliveredFrom(r, n.value))
  }

  lemma {:induction false} CursorsFollowOffsets<Row>(size: Row -> nat, rows: seq<Row>, bounded: nat, maxBytes: int,
                                                     cursor: string)
    requires bounded >= 1 && |rows| <= MAX_INT && ParseOffset(cursor) <= |rows|
    ensures Delivered(size, rows, bounded, maxBytes, cursor)
        == DeliveredFrom(Flow(size, rows, bounded, maxBytes), ParseOffset(cursor))
    decreases |rows| - ParseOffset(cursor)
  {
    PageAtOffset(size, rows, bounded, maxBytes, cursor);
    var page := ToolPage(size, rows, bounded, maxBytes, cursor);
    if page.next != "" { CursorsFollowOffsets(size, rows, bounded, maxBytes, page.next); }
  }

  // ----- order

  ghost predicate Increasing(ids: seq<int>, lo: int, hi: int) {
    && (forall i | 0 <= i < |ids| :: lo <= ids[i] < hi)
    && (forall i, j | 0 <= i < j < |ids| :: ids[i] < ids[j])
  }

  lemma IncreasingJoin(a: seq<int>, b: seq<int>, lo: int, mid: int, hi: int)
    requires Increasing(a, lo, mid) && Increasing(b, mid, hi) && lo <= mid <= hi
    ensures Increasing(a + b, lo, hi)
  {
  }

  lemma {:induction false} OffsetsIncrease(r: Reading, p: nat)
    requires Sane(r) && p <= r.total
    ensures Increasing(DeliveredFrom(r, p), p, r.total)
    decreases r.total - p
  {
    var n := NextOffset(r, p);
    if n.Some? {
      OffsetsIncrease(r, n.value);
      IncreasingJoin(Range(p, p + r.count(p)), DeliveredFrom(r, n.value), p, n.value, r.total);
    }
  }

  /** Whatever the limits, no row comes twice or out of order. */
  lemma NeverTwice<Row>(size: Row -> nat, rows: seq<Row>, bounded: nat, maxBytes: int, cursor: string)
    requires bounded >= 1 && |rows| <= MAX_INT && ParseOffset(cursor) <= |rows|
    ensures Increasing(Delivered(size, rows, bounded, maxBytes, cursor), ParseOffset(cursor), |rows|)
  {
    CursorsFollowOffsets(size, rows, bounded, maxBytes, cursor);
    OffsetsIncrease(Flow(size, rows, bounded, maxBytes), ParseOffset(cursor));
  }

  lemma {:induction false} IncreasingLength(ids: seq<int>, lo: int, hi: int)
    requires Increasing(ids, lo, hi) && lo <= hi
    ensures |ids| <= hi - lo
    ensures |ids| == hi - lo ==> forall i | 0 <= i < |ids| :: ids[i] == lo + i
    decreases |ids|
  {
    if ids != [] {
      var n := |ids| - 1;
      IncreasingLength(ids[..n], lo, ids[n]);
    }
  }

  lemma AllInOrder(ids: seq<int>, n: nat)
    requires Increasing(ids, 0, n)
    ensures ids == Range(0, n) <==> |ids| == n
  {
    IncreasingLength(ids, 0, n);
  }

  // ----- when every row arrives

  /** From `p` on, every window cut by the row limit is kept whole, and the pages of the last window
      never come out empty. */
  ghost predicate Whole(r: Reading, p: nat)
    requires Sane(r)
    decreases r.total - p
  {
    if p >= r.total then true
    else if p + r.bounded < r.total then r.count(p) == r.bounded && Whole(r, p + r.bounded)
    else r.count(p) > 0 && Whole(r, p + r.count(p))
  }

  lemma {:induction false} DeliversWhole(r: Reading, p: nat)
    requires Sane(r) && p <= r.total
    ensures |DeliveredFrom(r, p)| <= r.total - p
    ensures |DeliveredFrom(r, p)| == r.total - p <==> Whole(r, p)
    decreases r.total - p
  {
    var n := NextOffset(r, p);
    if n.Some? { DeliversWhole(r, n.value); }
  }

  predicate WindowFits<Row>(size: Row -> nat, rows: seq<Row>, bounded: nat, maxBytes: int, p: nat)
    requires p + bounded <= |rows|
  {
    Total(size, rows[p..p + bounded]) <= maxBytes
  }

  predicate RowsFit<Row>(size: Row -> nat, rows: seq<Row>, maxBytes: int, p: nat) {
    forall i | p <= i < |rows| :: size(rows[i]) <= maxBytes
  }

  /** From the page at `p` on, no page loses a row: a page cut by the row limit fits the byte limit
      whole, and in the last window every row fits alone. */
  predicate NothingCut<Row>(size: Row -> nat, rows: seq<Row>, bounded: nat, maxBytes: int, p: nat)
    requires bounded >= 1
    decreases |rows| - p
  {
    if p + bounded < |rows| then WindowFits(size, rows, bounded, maxBytes, p)
        && NothingCut(size, rows, bounded, maxBytes, p + bounded)
    else RowsFit(size, rows, maxBytes, p)
  }

  lemma {:induction false} PartOfTotal<Row>(size: Row -> nat, rows: seq<Row>, i: nat)
    requires i < |rows|
    ensures size(rows[i]) <= Total(size, rows)
    decreases |rows|
  {
    if i < |rows| - 1 { PartOfTotal(size, rows[..|rows| - 1], i); }
  }

  /** A window is kept whole exactly when it fits, and not at all exactly when its first row does not fit. */
  lemma FitFacts<Row>(size: Row -> nat, w: seq<Row>, maxBytes: int)
    requires w != [] && maxBytes >= 0
    ensures FitCount(size, w, maxBytes) == |w| <==> Total(size, w) <= maxBytes
    ensures FitCount(size, w, maxBytes) > 0 <==> size(w[0]) <= maxBytes
  {
    var k := FitCount(size, w, maxBytes);
    assert w[..|w|] == w;
    assert k < |w| ==> TooMuch(size, w, maxBytes, |w|);
    assert k == 0 ==> TooMuch(size, w, maxBytes, 1);
    assert Total(size, w[..1]) == size(w[0]) by { assert w[..1][..0] == []; }
    if k > 0 { TotalGrows(size, w, 1, k); }
  }

  /** A page cut by the row limit is kept whole exactly when it fits. */
  lemma FullWindow<Row>(size: Row -> nat, rows: seq<Row>, bounded: nat, maxBytes: int, p: nat)
    requires bounded >= 1 && maxBytes >= 0 && p + bounded < |rows|
    ensures Count(size, rows, bounded, maxBytes, p) == bounded <==> WindowFits(size, rows, bounded, maxBytes, p)
  {
    FitFacts(size, Window(rows, p, bounded), maxBytes);
  }

  /** A page of the last window is empty exactly when its first row does not fit, and all the rows
      it keeps fit. */
  lemma LastPage<Row>(size: Row -> nat, rows: seq<Row>, bounded: nat, maxBytes: int, p: nat)
    requires maxBytes >= 0 && p < |rows| <= p + bounded
    ensures var k := Count(size, rows, bounded, maxBytes, p);
            && (k > 0 <==> size(rows[p]) <= maxBytes)
            && (RowsFit(size, rows, maxBytes, p) <==> k > 0 && RowsFit(size, rows, maxBytes, p + k))
  {
    var w := Window(rows, p, bounded);
    assert w == rows[p..];
    FitFacts(size, w, maxBytes);
    var k := FitCount(size, w, maxBytes);
    forall i | p <= i < p + k ensures size(rows[i]) <= maxBytes {
      PartOfTotal(size, w[..k], i - p);
      assert w[..k][i - p] == rows[i];
    }
  }

  /** What the page counts of `r` say about the sizes of the rows at `p`. */
  ghost predicate Agrees<Row>(r: Reading, size: Row -> nat, rows: seq<Row>, maxBytes: int, p: nat) {
    && (p + r.bounded < |rows| ==> (r.count(p) == r.bounded <==> WindowFits(size, rows, r.bounded, maxBytes, p)))
    && (p < |rows| <= p + r.bounded
        ==> (RowsFit(size, rows, maxBytes, p) <==> r.count(p) > 0 && RowsFit(size, rows, maxBytes, p + r.count(p))))
  }

  lemma FlowAgrees<Row>(size: Row -> nat, rows: seq<Row>, bounded: nat, maxBytes: int)
    requires bounded >= 1 && maxBytes >= 0
    ensures Sane(Flow(size, rows, bounded, maxBytes))
    ensures forall p: nat :: Agrees(Flow(size, rows, bounded, maxBytes), size, rows, maxBytes, p)
  {
    forall p: nat ensures Agrees(Flow(size, rows, bounded, maxBytes), size, rows, maxBytes, p) {
      if p + bounded < |rows| { FullWindow(size, rows, bounded, maxBytes, p); }
      if p < |rows| <= p + bounded { LastPage(size, rows, bounded, maxBytes, p); }
    }
  }

  lemma {:induction false} WholeMeansNothingCut<Row>(r: Reading, size: Row -> nat, rows: seq<Row>, maxBytes: int,
                                                     p: nat)
    requires Sane(r) && r.total == |rows| && forall q: nat :: Agrees(r, size, rows, maxBytes, q)
    ensures Whole(r, p) <==> NothingCut(size, rows, r.bounded, maxBytes, p)
    decreases |rows| - p
  {
    assert Agrees(r, size, rows, maxBytes, p);
    if p + r.bounded < |rows| {
      WholeMeansNothingCut(r, size, rows, maxBytes, p + r.bounded);
    } else if p < |rows| && r.count(p) > 0 {
      WholeMeansNothingCut(r, size, rows, maxBytes, p + r.count(p));
    }
  }

  /** Starting from the empty cursor, a caller gets every row exactly once and in order if and only
      if no page cut by the row limit is also cut by the byte limit and every row of the last
      window fits the byte limit alone. */
  lemma EveryRowOnce<Row>(size: Row -> nat, rows: seq<Row>, bounded: nat, maxBytes: int)
    requires bounded >= 1 && maxBytes >= 0 && |rows| <= MAX_INT
    ensures Delivered(size, rows, bounded, maxBytes, "") == Range(0, |rows|)
        <==> NothingCut(size, rows, bounded, maxBytes, 0)
  {
    var r := Flow(size, rows, bounded, maxBytes);
    CursorsFollowOffsets(size, rows, bounded, maxBytes, "");
    OffsetsIncrease(r, 0);
    AllInOrder(DeliveredFrom(r, 0), |rows|);
    DeliversWhole(r, 0);
    FlowAgrees(size, rows, bounded, maxBytes);
    WholeMeansNothingCut(r, size, rows, maxBytes, 0);
  }

  lemma TotalOfTwo<Row>(size: Row -> nat, w: seq<Row>)
    requires |w| == 2
    ensures Total(size, w) == size(w[0]) + size(w[1])
  {
    assert Total(size, w[..1]) == size(w[0]) by { assert w[..1][..0] == []; }
  }

  lemma SkippedRow(r: Reading, p: nat, i: nat)
    requires Sane(r) && p + r.bounded < r.total && p + r.count(p) <= i < p + r.bounded
    ensures i !in DeliveredFrom(r, p)
  {
    OffsetsIncrease(r, p + r.bounded);
  }

  /** A row that the byte limit drops from a page cut by the row limit is never delivered, because
      that page keeps the client's cursor. */
  lemma DroppedRowNeverComes<Row>(size: Row -> nat, rows: seq<Row>, bounded: nat, maxBytes: int, cursor: string, i: nat)
    requires bounded >= 1 && |rows| <= MAX_INT && ParseOffset(cursor) + bounded < |rows|
    requires var p := ParseOffset(cursor); p + Count(size, rows, bounded, maxBytes, p) <= i < p + bounded
    ensures i !in Delivered(size, rows, bounded, maxBytes, cursor)
  {
    CursorsFollowOffsets(size, rows, bounded, maxBytes, cursor);
    SkippedRow(Flow(size, rows, bounded, maxBytes), ParseOffset(cursor), i);
  }

  lemma OneOfTwoFits<Row>(size: Row -> nat, rows: seq<Row>, maxBytes: int)
    requires |rows| >= 2 && size(rows[0]) <= maxBytes < size(rows[0]) + size(rows[1])
    ensures Count(size, rows, 2, maxBytes, 0) == 1
  {
    var w := Window(rows, 0, 2);
    TotalOfTwo(size, w);
    FitFacts(size, w, maxBytes);
  }

  /** Three rows of two bytes, two rows a page, three bytes a page: row 1 is never delivered. */
  lemma MiddleRowLost(rows: seq<int>)
    requires |rows| == 3
    ensures 1 !in Delivered(_ => 2, rows, 2, 3, "")
  {
    OneOfTwoFits(_ => 2, rows, 3);
    DroppedRowNeverComes(_ => 2, rows, 2, 3, "", 1);
  }
}
