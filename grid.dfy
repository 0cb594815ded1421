/** The board of the dots-and-boxes game as values: who owns each horizontal
    line, each vertical line and each box, the box-completion scan run after a
    line is claimed, and the order in which the pointer scan picks a line. */
module Grid {
  import opened Wrappers

  /** Dots per row and per column. */
  const DOT_COUNT: int := 6
  /** Boxes per row and per column. */
  const SIDE: int := DOT_COUNT - 1
  /** Boxes on the board. */
  const BOX_COUNT: int := SIDE * SIDE
  /** How close, in pixels, the pointer must be to a line to pick it. */
  const CLICK_THRESHOLD: real := 15.0

  predicate IsPlayer(p: int) { p == 1 || p == 2 }

  /** A cell holds 0 while unclaimed, otherwise the number of its owner. */
  predicate IsOwner(x: int) { x == 0 || IsPlayer(x) }

  /** A line segment between two neighbouring dots: `H(r, c)` joins dots
      (r, c) and (r, c + 1), `V(r, c)` joins dots (r, c) and (r + 1, c). */
  datatype Line = H(r: int, c: int) | V(r: int, c: int)

  /** Owners of the horizontal lines (DOT_COUNT rows of SIDE), the vertical
      lines (SIDE rows of DOT_COUNT) and the boxes (SIDE rows of SIDE). */
  datatype Board = Board(h: seq<seq<int>>, v: seq<seq<int>>, b: seq<seq<int>>)

  predicate Shaped(g: seq<seq<int>>, rows: int, cols: int) {
    |g| == rows &&
    (forall i :: 0 <= i < rows ==> |g[i]| == cols) &&
    (forall i, j :: 0 <= i < rows && 0 <= j < cols ==> IsOwner(g[i][j]))
  }

  predicate WellFormed(bd: Board) {
    Shaped(bd.h, DOT_COUNT, SIDE) && Shaped(bd.v, SIDE, DOT_COUNT) && Shaped(bd.b, SIDE, SIDE)
  }

  predicate InGrid(r: int, c: int) { 0 <= r < SIDE && 0 <= c < SIDE }

  /** All four sides of box (r, c) are claimed, by whichever players. */
  predicate Complete(bd: Board, r: int, c: int)
    requires WellFormed(bd) && InGrid(r, c)
  {
    bd.h[r][c] != 0 && bd.h[r + 1][c] != 0 && bd.v[r][c] != 0 && bd.v[r][c + 1] != 0
  }

  /** Box (r, c) is unclaimed although its four sides are claimed. */
  predicate Completable(bd: Board, r: int, c: int)
    requires WellFormed(bd) && InGrid(r, c)
  {
    bd.b[r][c] == 0 && Complete(bd, r, c)
  }

  /** Every owned box has four claimed sides. */
  ghost predicate OwnedComplete(bd: Board)
    requires WellFormed(bd)
  {
    forall r, c :: InGrid(r, c) && bd.b[r][c] != 0 ==> Complete(bd, r, c)
  }

  /** A box is owned exactly when its four sides are claimed. */
  ghost predicate Settled(bd: Board)
    requires WellFormed(bd)
  {
    forall r, c :: InGrid(r, c) ==> (bd.b[r][c] != 0 <==> Complete(bd, r, c))
  }

  predicate LineInBounds(l: Line) {
    match l
    case H(r, c) => 0 <= r < DOT_COUNT && 0 <= c < SIDE
    case V(r, c) => 0 <= r < SIDE && 0 <= c < DOT_COUNT
  }

  function LineOwner(bd: Board, l: Line): int
    requires WellFormed(bd) && LineInBounds(l)
  {
    match l
    case H(r, c) => bd.h[r][c]
    case V(r, c) => bd.v[r][c]
  }

  ghost predicate AllLinesClaimed(bd: Board)
    requires WellFormed(bd)
  {
    forall l :: LineInBounds(l) ==> LineOwner(bd, l) != 0
  }

  /** Claims are never withdrawn and never pass to the other player. */
  ghost predicate Extends(before: Board, after: Board)
    requires WellFormed(before) && WellFormed(after)
  {
    (forall l :: LineInBounds(l) && LineOwner(before, l) != 0 ==> LineOwner(after, l) == LineOwner(before, l)) &&
    (forall r, c :: InGrid(r, c) && before.b[r][c] != 0 ==> after.b[r][c] == before.b[r][c])
  }

  /** The board after player `p` draws line `l`. */
  function Claim(bd: Board, l: Line, p: int): (r: Board)
    requires WellFormed(bd) && LineInBounds(l) && IsPlayer(p)
    ensures WellFormed(r) && r.b == bd.b
  {
    match l
    case H(i, j) => bd.(h := bd.h[i := bd.h[i][j := p]])
    case V(i, j) => bd.(v := bd.v[i := bd.v[i][j := p]])
  }

  /** Drawing `l` gives `l` to `p` and leaves every other line and every box
      as it was, so an undrawn line is drawn without taking anything back,
      and no box becomes owned without its four sides. */
  lemma ClaimDraws(bd: Board, l: Line, p: int)
    requires WellFormed(bd) && LineInBounds(l) && IsPlayer(p)
    ensures LineOwner(Claim(bd, l, p), l) == p
    ensures forall k :: LineInBounds(k) && k != l ==> LineOwner(Claim(bd, l, p), k) == LineOwner(bd, k)
    ensures LineOwner(bd, l) == 0 ==> Extends(bd, Claim(bd, l, p))
    ensures OwnedComplete(bd) ==> OwnedComplete(Claim(bd, l, p))
  {
  }

  /** What the box-completion scan leaves in box (r, c). */
  function ScanCell(bd: Board, p: int, r: int, c: int): int
    requires WellFormed(bd) && InGrid(r, c)
  {
    if Completable(bd, r, c) then p else bd.b[r][c]
  }

  /** The board after the full-grid scan that hands every unclaimed box with
      four claimed sides to player `p`. */
  function Scan(bd: Board, p: int): (r: Board)
    requires WellFormed(bd) && IsPlayer(p)
    ensures WellFormed(r) && r.h == bd.h && r.v == bd.v
  {
    bd.(b := seq(SIDE, i requires 0 <= i < SIDE =>
                 seq(SIDE, j requires 0 <= j < SIDE => ScanCell(bd, p, i, j))))
  }

  /** The scan hands exactly the completable boxes to `p` and keeps every
      other box, takes nothing back, leaves no box with four sides unowned,
      and so settles a board on which every owned box was complete. */
  lemma ScanSettles(bd: Board, p: int)
    requires WellFormed(bd) && IsPlayer(p)
    ensures forall i, j :: InGrid(i, j) && Completable(bd, i, j) ==> Scan(bd, p).b[i][j] == p
    ensures forall i, j :: InGrid(i, j) && !Completable(bd, i, j) ==> Scan(bd, p).b[i][j] == bd.b[i][j]
    ensures Extends(bd, Scan(bd, p))
    ensures forall i, j :: InGrid(i, j) && Complete(Scan(bd, p), i, j) ==> Scan(bd, p).b[i][j] != 0
    ensures OwnedComplete(bd) ==> Settled(Scan(bd, p))
  {
  }

  // ---------------------------------------------------------------------------
  // Counting

  /** Cells among row[..c] that hold x. */
  function RowCount(row: seq<int>, x: int, c: int): nat
    requires 0 <= c <= |row|
  {
    if c == 0 then 0 else RowCount(row, x, c - 1) + (if row[c - 1] == x then 1 else 0)
  }

  /** Cells in the rows g[..r] that hold x. */
  function GridCount(g: seq<seq<int>>, x: int, r: int): nat
    requires 0 <= r <= |g|
  {
    if r == 0 then 0 else GridCount(g, x, r - 1) + RowCount(g[r - 1], x, |g[r - 1]|)
  }

  /** Boxes of `g` that hold x: for a player, the boxes that player owns. */
  function Owned(g: seq<seq<int>>, x: int): nat {
    GridCount(g, x, |g|)
  }

  /** Completable boxes among (r, 0) .. (r, c - 1). */
  function NewInRow(bd: Board, r: int, c: int): nat
    requires WellFormed(bd) && 0 <= r < SIDE && 0 <= c <= SIDE
  {
    if c == 0 then 0 else NewInRow(bd, r, c - 1) + (if Completable(bd, r, c - 1) then 1 else 0)
  }

  /** Completable boxes in rows 0 .. r - 1. */
  function NewInRows(bd: Board, r: int): nat
    requires WellFormed(bd) && 0 <= r <= SIDE
  {
    if r == 0 then 0 else NewInRows(bd, r - 1) + NewInRow(bd, r - 1, SIDE)
  }

  /** The number the box-completion scan reports: completable boxes. */
  function NewCount(bd: Board): nat
    requires WellFormed(bd)
  {
    NewInRows(bd, SIDE)
  }

  lemma {:induction false} ScanRowCount(bd: Board, p: int, x: int, r: int, c: int)
    requires WellFormed(bd) && IsPlayer(p) && 0 <= r < SIDE && 0 <= c <= SIDE
    ensures RowCount(Scan(bd, p).b[r], x, c) + (if x == 0 then NewInRow(bd, r, c) else 0)
         == RowCount(bd.b[r], x, c) + (if x == p then NewInRow(bd, r, c) else 0)
  {
    if c > 0 {
      ScanRowCount(bd, p, x, r, c - 1);
    }
  }

  lemma {:induction false} ScanRowsCount(bd: Board, p: int, x: int, r: int)
    requires WellFormed(bd) && IsPlayer(p) && 0 <= r <= SIDE
    ensures GridCount(Scan(bd, p).b, x, r) + (if x == 0 then NewInRows(bd, r) else 0)
         == GridCount(bd.b, x, r) + (if x == p then NewInRows(bd, r) else 0)
  {
    if r > 0 {
      ScanRowsCount(bd, p, x, r - 1);
      ScanRowCount(bd, p, x, r - 1, SIDE);
    }
  }

  /** The scan's count is exactly the number of boxes it hands to `p`: the
      boxes `p` owns grow by that number, the unclaimed boxes shrink by it,
      and the other player's boxes stay as they were. */
  lemma ScanCount(bd: Board, p: int, x: int)
    requires WellFormed(bd) && IsPlayer(p)
    ensures Owned(Scan(bd, p).b, x) + (if x == 0 then NewCount(bd) else 0)
         == Owned(bd.b, x) + (if x == p then NewCount(bd) else 0)
  {
    ScanRowsCount(bd, p, x, SIDE);
  }

  lemma {:induction false} NoneInRow(bd: Board, r: int, c: int)
    requires WellFormed(bd) && 0 <= r < SIDE && 0 <= c <= SIDE
    requires forall j :: 0 <= j < c ==> !Completable(bd, r, j)
    ensures NewInRow(bd, r, c) == 0
  {
    if c > 0 {
      NoneInRow(bd, r, c - 1);
    }
  }

  lemma {:induction false} NoneInRows(bd: Board, r: int)
    requires WellFormed(bd) && 0 <= r <= SIDE
    requires forall i, j :: InGrid(i, j) ==> !Completable(bd, i, j)
    ensures NewInRows(bd, r) == 0
  {
    if r > 0 {
      NoneInRows(bd, r - 1);
      NoneInRow(bd, r - 1, SIDE);
    }
  }

  /** A second scan straight after the first finds nothing: the scan never
      re-assigns a box it or an earlier scan has handed out. */
  lemma RescanFindsNothing(bd: Board, p: int)
    requires WellFormed(bd) && IsPlayer(p)
    ensures NewCount(Scan(bd, p)) == 0
  {
    NoneInRows(Scan(bd, p), SIDE);
  }

  lemma {:induction false} RowTotal(row: seq<int>, c: int)
    requires 0 <= c <= |row|
    requires forall j :: 0 <= j < |row| ==> IsOwner(row[j])
    ensures RowCount(row, 0, c) + RowCount(row, 1, c) + RowCount(row, 2, c) == c
  {
    if c > 0 {
      RowTotal(row, c - 1);
    }
  }

  lemma {:induction false} GridTotal(g: seq<seq<int>>, r: int)
    requires Shaped(g, SIDE, SIDE) && 0 <= r <= SIDE
    ensures GridCount(g, 0, r) + GridCount(g, 1, r) + GridCount(g, 2, r) == r * SIDE
  {
    if r > 0 {
      GridTotal(g, r - 1);
      RowTotal(g[r - 1], SIDE);
    }
  }

  lemma {:induction false} RowCountZero(row: seq<int>, x: int, c: int)
    requires 0 <= c <= |row|
    ensures RowCount(row, x, c) == 0 <==> forall j :: 0 <= j < c ==> row[j] != x
  {
    if c > 0 {
      RowCountZero(row, x, c - 1);
    }
  }

  lemma {:induction false} GridCountZero(g: seq<seq<int>>, x: int, r: int)
    requires 0 <= r <= |g|
    ensures GridCount(g, x, r) == 0 <==> forall i, j :: 0 <= i < r && 0 <= j < |g[i]| ==> g[i][j] != x
  {
    if r > 0 {
      GridCountZero(g, x, r - 1);
      RowCountZero(g[r - 1], x, |g[r - 1]|);
    }
  }

  /** The two players together own as many boxes as are not unclaimed, never
      more than BOX_COUNT, and exactly BOX_COUNT when no box is unclaimed. */
  lemma ClaimedBoxes(g: seq<seq<int>>)
    requires Shaped(g, SIDE, SIDE)
    ensures Owned(g, 1) + Owned(g, 2) == BOX_COUNT - Owned(g, 0)
    ensures Owned(g, 1) + Owned(g, 2) <= BOX_COUNT
    ensures Owned(g, 1) + Owned(g, 2) == BOX_COUNT <==> forall i, j :: InGrid(i, j) ==> g[i][j] != 0
  {
    GridTotal(g, SIDE);
    GridCountZero(g, 0, SIDE);
  }

  /** On a settled board every box is owned exactly when every line is drawn:
      each line is a side of some box. */
  lemma FullBoardIffAllLines(bd: Board)
    requires WellFormed(bd) && Settled(bd)
    ensures (forall i, j :: InGrid(i, j) ==> bd.b[i][j] != 0) <==> AllLinesClaimed(bd)
  {
    if forall i, j :: InGrid(i, j) ==> bd.b[i][j] != 0 {
      forall l | LineInBounds(l) ensures LineOwner(bd, l) != 0 {
        match l
        case H(r, c) =>
          if r < SIDE { assert Complete(bd, r, c); } else { assert Complete(bd, r - 1, c); }
        case V(r, c) =>
          if c < SIDE { assert Complete(bd, r, c); } else { assert Complete(bd, r, c - 1); }
      }
    }
    if AllLinesClaimed(bd) {
      forall i, j | InGrid(i, j) ensures bd.b[i][j] != 0 {
        assert LineOwner(bd, H(i, j)) != 0 && LineOwner(bd, H(i + 1, j)) != 0;
        assert LineOwner(bd, V(i, j)) != 0 && LineOwner(bd, V(i, j + 1)) != 0;
      }
    }
  }

  // ---------------------------------------------------------------------------
  // Picking a line under the pointer

  /** Pointer position relative to the top-left dot, with the cell size in
      force, both in canvas pixels. */
  datatype Pointer = Pointer(x: real, y: real, cellWidth: real, cellHeight: real)

  function Abs(x: real): real { if x < 0.0 then -x else x }

  /** The pointer lies within the pick band of line `l`. */
  predicate Near(ptr: Pointer, l: Line) {
    match l
    case H(r, c) =>
      Abs(ptr.y - (r as real) * ptr.cellHeight) < CLICK_THRESHOLD &&
      ptr.x > (c as real) * ptr.cellWidth && ptr.x < ((c + 1) as real) * ptr.cellWidth
    case V(r, c) =>
      Abs(ptr.x - (c as real) * ptr.cellWidth) < CLICK_THRESHOLD &&
      ptr.y > (r as real) * ptr.cellHeight && ptr.y < ((r + 1) as real) * ptr.cellHeight
  }

  /** Line `l` exists, is undrawn and is under the pointer. */
  predicate Selectable(bd: Board, ptr: Pointer, l: Line)
    requires WellFormed(bd)
  {
    LineInBounds(l) && LineOwner(bd, l) == 0 && Near(ptr, l)
  }

  /** Position of a line in the scan: every horizontal line row by row, then
      every vertical line row by row. */
  function ScanIndex(l: Line): int {
    match l
    case H(r, c) => r * SIDE + c
    case V(r, c) => DOT_COUNT * SIDE + r * DOT_COUNT + c
  }

  /** `res` is what the pointer scan must answer: the first selectable line
      in scan order, or None when no line is selectable. */
  ghost predicate ScanResult(bd: Board, ptr: Pointer, res: Option<Line>)
    requires WellFormed(bd)
  {
    match res
    case None => forall l :: LineInBounds(l) ==> !Selectable(bd, ptr, l)
    case Some(l) =>
      Selectable(bd, ptr, l) &&
      forall k :: LineInBounds(k) && ScanIndex(k) < ScanIndex(l) ==> !Selectable(bd, ptr, k)
  }

  /** Whenever some horizontal line is selectable the scan picks a horizontal
      line: vertical lines are tried only after every horizontal one. */
  lemma HorizontalFirst(bd: Board, ptr: Pointer, res: Option<Line>, r: int, c: int)
    requires WellFormed(bd) && ScanResult(bd, ptr, res) && Selectable(bd, ptr, H(r, c))
    ensures res.Some? && res.value.H?
    ensures ScanIndex(res.value) <= ScanIndex(H(r, c))
  {
  }

  /** The scan answer is determined by the board and the pointer. */
  lemma ScanResultUnique(bd: Board, ptr: Pointer, res1: Option<Line>, res2: Option<Line>)
    requires WellFormed(bd) && ScanResult(bd, ptr, res1) && ScanResult(bd, ptr, res2)
    ensures res1 == res2
  {
  }
}
