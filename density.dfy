/** The density penalty (ABU): a grid of square bins over the placement
    region, the free row area and the fixed and movable cell area in each
    bin, each bin's utilisation, and the overflow of the averages of the most
    utilised bins over the target utilisation. */
module Density {
  import opened Model

  /** The placement region, from its lower left corner (lx, ly) to its upper
      right corner (hx, hy), and the height of a standard row. */
  datatype Chip = Chip(lx: real, ly: real, hx: real, hy: real, rowHeight: real)
  {
    predicate Valid()
    {
      lx < hx && ly < hy && rowHeight > 0.0
    }
  }

  /** `xn` by `yn` square bins of side `g` laid from the chip's lower left
      corner. */
  datatype Grid = Grid(chip: Chip, g: real, xn: nat, yn: nat)
  {
    predicate Valid()
    {
      chip.Valid() && g > 0.0 && xn > 0 && yn > 0
    }
  }

  /** A bin: its rectangle, its area, and the movable cell area, fixed cell
      area and row area it holds. */
  datatype Bin = Bin(lx: real, ly: real, hx: real, hy: real, area: real, mUtil: real, fUtil: real, freeSpace: real)

  /** `ceil(span / g)` bins cover `span`, and one fewer do not. */
  lemma CeilCovers(span: real, g: real)
    requires span > 0.0 && g > 0.0
    ensures Ceil(span / g) >= 1
    ensures (Ceil(span / g) as real) * g >= span
    ensures (Ceil(span / g) as real - 1.0) * g < span
  {
    CeilAbove(span, g);
    CeilBelow(span, g);
  }

  lemma CeilAbove(span: real, g: real)
    requires span > 0.0 && g > 0.0
    ensures (Ceil(span / g) as real) * g >= span
  {
    var c := Ceil(span / g);
    var v := span / g;
    assert v * g == span;
    MulLe(v, c as real, g);
    assert c as real * g >= v * g;
  }

  lemma CeilBelow(span: real, g: real)
    requires span > 0.0 && g > 0.0
    ensures (Ceil(span / g) as real - 1.0) * g < span
  {
    var c := Ceil(span / g);
    var v := span / g;
    assert v * g == span;
    MulLt(c as real - 1.0, v, g);
    assert (c as real - 1.0) * g < v * g;
  }

  /** The grid covers the chip, and one row or column fewer would not. */
  predicate Fits(gr: Grid)
  {
    && (gr.xn as real) * gr.g >= gr.chip.hx - gr.chip.lx && (gr.xn as real - 1.0) * gr.g < gr.chip.hx - gr.chip.lx
    && (gr.yn as real) * gr.g >= gr.chip.hy - gr.chip.ly && (gr.yn as real - 1.0) * gr.g < gr.chip.hy - gr.chip.ly
  }

  /** The bin grid over the chip for bins `unit` rows high. */
  function MakeGrid(chip: Chip, unit: real): (gr: Grid)
    requires chip.Valid() && unit > 0.0
    ensures gr.Valid() && Fits(gr) && gr.chip == chip && gr.g == unit * chip.rowHeight
  {
    var g := unit * chip.rowHeight;
    CeilCovers(chip.hx - chip.lx, g);
    CeilCovers(chip.hy - chip.ly, g);
    Grid(chip, g, Ceil((chip.hx - chip.lx) / g), Ceil((chip.hy - chip.ly) / g))
  }

  predicate InGrid(gr: Grid, j: int, k: int)
  {
    0 <= j < gr.yn && 0 <= k < gr.xn
  }

  /** The index of the first bin of grid row `j`: bins are numbered row by
      row, `xn` to a row. */
  function RowStart(gr: Grid, j: nat): nat
  {
    if j == 0 then 0 else RowStart(gr, j - 1) + gr.xn
  }

  /** The index of the bin in row `j`, column `k`. */
  function Id(gr: Grid, j: nat, k: nat): (id: nat)
    ensures InGrid(gr, j, k) ==> id < Size(gr)
  {
    if InGrid(gr, j, k) then RowStartGrows(gr, j, gr.yn); RowStart(gr, j) + k
    else RowStart(gr, j) + k
  }

  /** The number of bins, `xn * yn`. */
  function Size(gr: Grid): nat
  {
    RowStart(gr, gr.yn)
  }

  lemma {:induction false} SizeIsProduct(gr: Grid)
    ensures Size(gr) == gr.xn * gr.yn
  {
    RowStartIsProduct(gr, gr.yn);
  }

  lemma {:induction false} RowStartIsProduct(gr: Grid, j: nat)
    ensures RowStart(gr, j) == j * gr.xn
  {
    if j > 0 {
      RowStartIsProduct(gr, j - 1);
    }
  }

  /** A later row starts at least a whole row further on. */
  lemma {:induction false} RowStartGrows(gr: Grid, j1: nat, j2: nat)
    requires j1 < j2
    ensures RowStart(gr, j1) + gr.xn <= RowStart(gr, j2)
  {
    if j1 + 1 < j2 {
      RowStartGrows(gr, j1, j2 - 1);
    }
  }

  /** Distinct bins have distinct indices. */
  lemma IdsDistinct(gr: Grid)
    ensures forall j1: nat, k1: nat, j2: nat, k2: nat ::
      InGrid(gr, j1, k1) && InGrid(gr, j2, k2) && Id(gr, j1, k1) == Id(gr, j2, k2) ==> j1 == j2 && k1 == k2
  {
    forall j1: nat, k1: nat, j2: nat, k2: nat | InGrid(gr, j1, k1) && InGrid(gr, j2, k2) && Id(gr, j1, k1) == Id(gr, j2, k2)
      ensures j1 == j2 && k1 == k2
    {
      if j1 < j2 {
        RowStartGrows(gr, j1, j2);
      } else if j2 < j1 {
        RowStartGrows(gr, j2, j1);
      }
    }
  }

  /** Every index of the first `n` rows is some bin's. */
  lemma {:induction false} IdsCover(gr: Grid, n: nat, id: nat)
    requires n <= gr.yn && id < RowStart(gr, n)
    ensures exists j: nat, k: nat :: InGrid(gr, j, k) && j < n && Id(gr, j, k) == id
  {
    if id < RowStart(gr, n - 1) {
      IdsCover(gr, n - 1, id);
    } else {
      var j: nat, k: nat := n - 1, id - RowStart(gr, n - 1);
      assert InGrid(gr, j, k) && Id(gr, j, k) == id;
    }
  }

  function RectArea(w: real, h: real): real
  {
    w * h
  }

  /** Side `i` of equal sides of length `g` laid from `lo`, clipped at `hi`. */
  function Side(lo: real, hi: real, g: real, i: nat): (real, real)
  {
    var start := lo + (i as real) * g;
    (start, Min(start + g, hi))
  }

  /** Bin (j, k) before anything is added to it: clipped to the chip. */
  function EmptyBin(gr: Grid, j: nat, k: nat): Bin
  {
    var xs := Side(gr.chip.lx, gr.chip.hx, gr.g, k);
    var ys := Side(gr.chip.ly, gr.chip.hy, gr.g, j);
    Bin(xs.0, ys.0, xs.1, ys.1, Max(RectArea(xs.1 - xs.0, ys.1 - ys.0), 0.0), 0.0, 0.0, 0.0)
  }

  /** Each bin of a grid that fits the chip lies inside the chip and is at
      most a grid unit on each side. */
  lemma BinInsideChip(gr: Grid, j: nat, k: nat)
    requires gr.Valid() && Fits(gr) && InGrid(gr, j, k)
    ensures var b := EmptyBin(gr, j, k);
      && gr.chip.lx <= b.lx < b.hx <= gr.chip.hx && gr.chip.ly <= b.ly < b.hy <= gr.chip.hy
      && b.hx - b.lx <= gr.g && b.hy - b.ly <= gr.g
  {
    SideInside(gr.chip.lx, gr.chip.hx, gr.g, k, gr.xn);
    SideInside(gr.chip.ly, gr.chip.hy, gr.g, j, gr.yn);
  }

  /** ... and its area is positive and at most a grid unit squared. */
  lemma BinAreaBounded(gr: Grid, j: nat, k: nat)
    requires gr.Valid() && Fits(gr) && InGrid(gr, j, k)
    ensures 0.0 < EmptyBin(gr, j, k).area <= gr.g * gr.g
  {
    var b := EmptyBin(gr, j, k);
    BinInsideChip(gr, j, k);
    BoxArea(b.hx - b.lx, b.hy - b.ly, gr.g);
  }

  /** Side `i` of `n` equal sides laid from `lo`, clipped at `hi`, is
      non-empty when `n - 1` sides do not reach `hi`. */
  lemma SideInside(lo: real, hi: real, g: real, i: nat, n: nat)
    requires g > 0.0 && i < n && (n as real - 1.0) * g < hi - lo
    ensures var s := Side(lo, hi, g, i); lo <= s.0 < s.1 <= hi && s.1 - s.0 <= g
  {
    MulLe(0.0, i as real, g);
    MulLe(i as real, n as real - 1.0, g);
    var start := lo + (i as real) * g;
    assert lo <= start < hi;
  }

  lemma BoxArea(w: real, h: real, g: real)
    requires 0.0 < w <= g && 0.0 < h <= g
    ensures 0.0 < RectArea(w, h) <= g * g
  {
    MulLe(w, g, h);
    MulLe(h, g, g);
  }

  /* ---------------- rows and cells ---------------- */

  /** What a rectangle adds to the bins it overlaps. */
  datatype Kind = RowSites | FixedCell | MovableCell

  datatype Shape = Shape(lx: real, ly: real, hx: real, hy: real, kind: Kind)

  function RowShape(r: Row, rowHeight: real): Shape
  {
    Shape(r.origX, r.origY, r.origX + (r.numSites as real) * r.stepX, r.origY + rowHeight, RowSites)
  }

  function CellShape(c: Cell): Shape
  {
    Shape(c.x, c.y, c.x + c.width, c.y + c.height, if c.isFixed then FixedCell else MovableCell)
  }

  function RowShapes(rows: seq<Row>, rowHeight: real): (ss: seq<Shape>)
    ensures |ss| == |rows| && forall i :: 0 <= i < |ss| ==> ss[i].kind == RowSites
  {
    seq(|rows|, i requires 0 <= i < |rows| => RowShape(rows[i], rowHeight))
  }

  function CellShapes(cells: seq<Cell>): (ss: seq<Shape>)
    ensures |ss| == |cells|
    ensures forall i :: 0 <= i < |ss| ==> (ss[i].kind == MovableCell <==> !cells[i].isFixed)
  {
    seq(|cells|, i requires 0 <= i < |cells| => CellShape(cells[i]))
  }

  /** The column and row of the grid a coordinate falls in, as the source
      computes them before clamping to the grid. */
  function Column(gr: Grid, x: real): int
    requires gr.Valid()
  {
    ((x - gr.chip.lx) / gr.g).Floor
  }

  function GridRow(gr: Grid, y: real): int
    requires gr.Valid()
  {
    ((y - gr.chip.ly) / gr.g).Floor
  }

  function IntMax(a: int, b: int): int
  {
    if a < b then b else a
  }

  function IntMin(a: int, b: int): int
  {
    if a < b then a else b
  }

  /** The bins the source visits for a shape: the columns and rows its
      corners fall in, clamped to the grid. */
  predicate Covers(gr: Grid, s: Shape, j: int, k: int)
    requires gr.Valid()
  {
    && IntMax(GridRow(gr, s.ly), 0) <= j <= IntMin(GridRow(gr, s.hy), gr.yn - 1)
    && IntMax(Column(gr, s.lx), 0) <= k <= IntMin(Column(gr, s.hx), gr.xn - 1)
  }

  /** Overlaps thinner than this are ignored. */
  const Eps: real := 0.00001

  function OverlapWidth(b: Bin, s: Shape): real
  {
    Min(b.hx, s.hx) - Max(b.lx, s.lx)
  }

  function OverlapHeight(b: Bin, s: Shape): real
  {
    Min(b.hy, s.hy) - Max(b.ly, s.ly)
  }

  function OverlapArea(b: Bin, s: Shape): real
  {
    RectArea(OverlapWidth(b, s), OverlapHeight(b, s))
  }

  /** A shape's overlap with a bin, when it is thicker than `Eps` both ways,
      is added: row area to the free space (never beyond the bin's area),
      fixed cell area to the fixed utilisation, movable cell area to the
      movable utilisation. */
  function Touch(b: Bin, s: Shape): (b': Bin)
    ensures b'.lx == b.lx && b'.ly == b.ly && b'.hx == b.hx && b'.hy == b.hy && b'.area == b.area
  {
    if OverlapWidth(b, s) > Eps && OverlapHeight(b, s) > Eps then
      match s.kind
      case RowSites => b.(freeSpace := Min(b.freeSpace + OverlapArea(b, s), b.area))
      case FixedCell => b.(fUtil := b.fUtil + OverlapArea(b, s))
      case MovableCell => b.(mUtil := b.mUtil + OverlapArea(b, s))
    else b
  }

  /** Bin (j, k) after the shapes are added in order. */
  function Paint(gr: Grid, j: nat, k: nat, b: Bin, shapes: seq<Shape>): Bin
    requires gr.Valid()
  {
    if |shapes| == 0 then b
    else
      var before := Paint(gr, j, k, b, shapes[..|shapes| - 1]);
      if Covers(gr, shapes[|shapes| - 1], j, k) then Touch(before, shapes[|shapes| - 1]) else before
  }

  lemma {:induction false} PaintAppend(gr: Grid, j: nat, k: nat, b: Bin, xs: seq<Shape>, ys: seq<Shape>)
    requires gr.Valid()
    ensures Paint(gr, j, k, b, xs + ys) == Paint(gr, j, k, Paint(gr, j, k, b, xs), ys)
    decreases |ys|
  {
    if |ys| == 0 {
      assert xs + ys == xs;
    } else {
      assert (xs + ys)[..|xs + ys| - 1] == xs + ys[..|ys| - 1];
      PaintAppend(gr, j, k, b, xs, ys[..|ys| - 1]);
    }
  }

  /** Bin (j, k) once the rows and then the cells are added. */
  function PaintedBin(gr: Grid, rows: seq<Row>, cells: seq<Cell>, j: nat, k: nat): Bin
    requires gr.Valid()
  {
    Paint(gr, j, k, EmptyBin(gr, j, k), RowShapes(rows, gr.chip.rowHeight) + CellShapes(cells))
  }

  /** Adding shapes keeps the free space between 0 and the bin's area, and the
      utilisations non-negative. */
  lemma {:induction false} PaintBounds(gr: Grid, j: nat, k: nat, b: Bin, shapes: seq<Shape>)
    requires gr.Valid()
    requires 0.0 <= b.freeSpace <= b.area && b.mUtil >= 0.0 && b.fUtil >= 0.0
    ensures var p := Paint(gr, j, k, b, shapes);
      0.0 <= p.freeSpace <= p.area && p.mUtil >= 0.0 && p.fUtil >= 0.0
  {
    if |shapes| > 0 {
      PaintBounds(gr, j, k, b, shapes[..|shapes| - 1]);
      var before := Paint(gr, j, k, b, shapes[..|shapes| - 1]);
      var s := shapes[|shapes| - 1];
      if OverlapWidth(before, s) > Eps && OverlapHeight(before, s) > Eps {
        assert OverlapArea(before, s) > 0.0;
      }
    }
  }

  /** Shapes that are not movable cells add no movable area. */
  lemma {:induction false} PaintNoMovable(gr: Grid, j: nat, k: nat, b: Bin, shapes: seq<Shape>)
    requires gr.Valid()
    requires forall i :: 0 <= i < |shapes| ==> shapes[i].kind != MovableCell
    ensures Paint(gr, j, k, b, shapes).mUtil == b.mUtil
  {
    if |shapes| > 0 {
      PaintNoMovable(gr, j, k, b, shapes[..|shapes| - 1]);
    }
  }

  /** Every painted bin keeps its free space within its area. */
  lemma FreeSpaceWithinArea(gr: Grid, rows: seq<Row>, cells: seq<Cell>, j: nat, k: nat)
    requires gr.Valid()
    ensures var b := PaintedBin(gr, rows, cells, j, k);
      0.0 <= b.freeSpace <= b.area && b.mUtil >= 0.0 && b.fUtil >= 0.0
  {
    PaintBounds(gr, j, k, EmptyBin(gr, j, k), RowShapes(rows, gr.chip.rowHeight) + CellShapes(cells));
  }

  /** The empty bins of the grid, indexed row by row. */
  method InitBins(gr: Grid) returns (bins: array<Bin>)
    requires gr.Valid()
    ensures fresh(bins) && bins.Length == Size(gr)
    ensures forall j: nat, k: nat :: InGrid(gr, j, k) ==> bins[Id(gr, j, k)] == EmptyBin(gr, j, k)
  {
    bins := new Bin[Size(gr)](_ => Bin(0.0, 0.0, 0.0, 0.0, 0.0, 0.0, 0.0, 0.0));
    IdsDistinct(gr);
    var j := 0;
    while j < gr.yn
      invariant 0 <= j <= gr.yn
      invariant forall jj: nat, kk: nat :: InGrid(gr, jj, kk) && jj < j ==> bins[Id(gr, jj, kk)] == EmptyBin(gr, jj, kk)
    {
      var k := 0;
      while k < gr.xn
        invariant 0 <= k <= gr.xn
        invariant forall jj: nat, kk: nat :: InGrid(gr, jj, kk) && (jj < j || (jj == j && kk < k)) ==>
          bins[Id(gr, jj, kk)] == EmptyBin(gr, jj, kk)
      {
        bins[Id(gr, j, k)] := EmptyBin(gr, j, k);
        k := k + 1;
      }
      j := j + 1;
    }
  }

  /** Adds one shape to the bins it covers, row by row and column by column. */
  method PaintShape(bins: array<Bin>, gr: Grid, s: Shape)
    requires gr.Valid() && bins.Length == Size(gr)
    modifies bins
    ensures forall j: nat, k: nat :: InGrid(gr, j, k) ==>
      bins[Id(gr, j, k)] == if Covers(gr, s, j, k) then Touch(old(bins[Id(gr, j, k)]), s) else old(bins[Id(gr, j, k)])
  {
    IdsDistinct(gr);
    var lcol, rcol := IntMax(Column(gr, s.lx), 0), IntMin(Column(gr, s.hx), gr.xn - 1);
    var brow, trow := IntMax(GridRow(gr, s.ly), 0), IntMin(GridRow(gr, s.hy), gr.yn - 1);
    var j := brow;
    while j <= trow
      invariant j >= brow
      invariant forall jj: nat, kk: nat :: InGrid(gr, jj, kk) ==>
        bins[Id(gr, jj, kk)] == if Covers(gr, s, jj, kk) && jj < j then Touch(old(bins[Id(gr, jj, kk)]), s) else old(bins[Id(gr, jj, kk)])
    {
      var k := lcol;
      while k <= rcol
        invariant k >= lcol
        invariant forall jj: nat, kk: nat :: InGrid(gr, jj, kk) ==>
          bins[Id(gr, jj, kk)] == if Covers(gr, s, jj, kk) && (jj < j || (jj == j && kk < k)) then Touch(old(bins[Id(gr, jj, kk)]), s) else old(bins[Id(gr, jj, kk)])
      {
        bins[Id(gr, j, k)] := Touch(bins[Id(gr, j, k)], s);
        k := k + 1;
      }
      j := j + 1;
    }
  }

  /** Adds the shapes one after the other. */
  method PaintAll(bins: array<Bin>, gr: Grid, shapes: seq<Shape>)
    requires gr.Valid() && bins.Length == Size(gr)
    modifies bins
    ensures forall j: nat, k: nat :: InGrid(gr, j, k) ==> bins[Id(gr, j, k)] == Paint(gr, j, k, old(bins[Id(gr, j, k)]), shapes)
  {
    var i := 0;
    while i < |shapes|
      invariant 0 <= i <= |shapes|
      invariant forall j: nat, k: nat :: InGrid(gr, j, k) ==> bins[Id(gr, j, k)] == Paint(gr, j, k, old(bins[Id(gr, j, k)]), shapes[..i])
    {
      assert shapes[..i + 1][..i] == shapes[..i];
      PaintShape(bins, gr, shapes[i]);
      i := i + 1;
    }
    assert shapes[..i] == shapes;
  }

  /* ---------------- utilisation ---------------- */

  /** A bin takes part when its area is above the threshold share of a full
      bin. */
  predicate Counted(b: Bin, gr: Grid, tech: Tech)
  {
    b.area > RectArea(gr.g, gr.g) * tech.binAreaThreshold
  }

  /** A bin that takes part but whose free space, once its fixed area is
      taken off, is at most the threshold share of its area is skipped. */
  predicate Skipped(b: Bin, gr: Grid, tech: Tech)
  {
    Counted(b, gr, tech) && b.freeSpace - b.fUtil <= tech.freeSpaceThreshold * b.area
  }

  /** A bin once its fixed area is taken off its free space (bins that take
      part only). */
  function Settle(b: Bin, gr: Grid, tech: Tech): Bin
  {
    if Counted(b, gr, tech) then b.(freeSpace := b.freeSpace - b.fUtil) else b
  }

  /** A bin that takes part and is not skipped has free space left. */
  lemma RoomLeft(b: Bin, gr: Grid, tech: Tech)
    requires tech.Valid()
    requires Counted(b, gr, tech) && !Skipped(b, gr, tech)
    ensures b.freeSpace - b.fUtil > 0.0
  {
    assert RectArea(gr.g, gr.g) >= 0.0 by {
      if gr.g < 0.0 { MulLe(gr.g, 0.0, -gr.g); } else { MulLe(0.0, gr.g, gr.g); }
    }
    MulLe(0.0, RectArea(gr.g, gr.g), tech.binAreaThreshold);
    MulLe(0.0, tech.freeSpaceThreshold, b.area);
  }

  /** The share of a bin's remaining free space its movable cells take: 0 for
      a bin that does not take part or is skipped. */
  function Utilization(b: Bin, gr: Grid, tech: Tech): real
    requires tech.Valid()
  {
    if Counted(b, gr, tech) && !Skipped(b, gr, tech) then RoomLeft(b, gr, tech); b.mUtil / (b.freeSpace - b.fUtil) else 0.0
  }

  /** A bin with no movable area has utilisation 0, and with a non-negative
      movable area and threshold its utilisation is never negative. */
  lemma UtilizationSign(b: Bin, gr: Grid, tech: Tech)
    requires tech.Valid()
    ensures b.mUtil == 0.0 ==> Utilization(b, gr, tech) == 0.0
    ensures b.mUtil >= 0.0 ==> Utilization(b, gr, tech) >= 0.0
  {
    if Counted(b, gr, tech) && !Skipped(b, gr, tech) {
      RoomLeft(b, gr, tech);
      QuotientSign(b.mUtil, b.freeSpace - b.fUtil);
    }
  }

  function Utils(bs: seq<Bin>, gr: Grid, tech: Tech): (us: seq<real>)
    requires tech.Valid()
    ensures |us| == |bs|
  {
    seq(|bs|, i requires 0 <= i < |bs| => Utilization(bs[i], gr, tech))
  }

  /** How many of the bins are skipped. */
  function SkippedCount(bs: seq<Bin>, gr: Grid, tech: Tech): (c: nat)
    ensures c <= |bs|
  {
    if |bs| == 0 then 0
    else SkippedCount(bs[..|bs| - 1], gr, tech) + (if Skipped(bs[|bs| - 1], gr, tech) then 1 else 0)
  }

  /** Each bin's utilisation, in index order (the order the source visits the
      grid, row by row and column by column), taking each counted bin's fixed
      area off its free space and counting the skipped bins. */
  method Utilize(bins: array<Bin>, gr: Grid, tech: Tech) returns (util: array<real>, skipped: nat)
    requires tech.Valid()
    modifies bins
    ensures fresh(util) && util.Length == bins.Length
    ensures util[..] == Utils(old(bins[..]), gr, tech)
    ensures skipped == SkippedCount(old(bins[..]), gr, tech)
    ensures forall id :: 0 <= id < bins.Length ==> bins[id] == Settle(old(bins[id]), gr, tech)
  {
    util := new real[bins.Length](_ => 0.0);
    skipped := 0;
    ghost var orig := bins[..];
    var id := 0;
    while id < bins.Length
      invariant 0 <= id <= bins.Length
      invariant forall i :: 0 <= i < id ==> util[i] == Utilization(orig[i], gr, tech) && bins[i] == Settle(orig[i], gr, tech)
      invariant forall i :: id <= i < bins.Length ==> util[i] == 0.0 && bins[i] == orig[i]
      invariant skipped == SkippedCount(orig[..id], gr, tech)
    {
      var b := bins[id];
      if Counted(b, gr, tech) {
        bins[id] := Settle(b, gr, tech);
        if !Skipped(b, gr, tech) {
          util[id] := Utilization(b, gr, tech);
        } else {
          skipped := skipped + 1;
        }
      }
      assert orig[..id + 1][..id] == orig[..id];
      id := id + 1;
    }
    assert orig[..bins.Length] == orig;
    assert util[..] == Utils(orig, gr, tech);
  }

  /* ---------------- sorting ---------------- */

  predicate Ascending(s: seq<real>)
  {
    forall p, q :: 0 <= p < q < |s| ==> s[p] <= s[q]
  }

  method SwapDown(a: array<real>, j: int)
    requires 0 < j < a.Length
    modifies a
    ensures a[j - 1] == old(a[j]) && a[j] == old(a[j - 1])
    ensures forall m :: 0 <= m < a.Length && m != j - 1 && m != j ==> a[m] == old(a[m])
    ensures multiset(a[..]) == old(multiset(a[..]))
  {
    a[j - 1], a[j] := a[j], a[j - 1];
  }

  /** Sorts the utilisations into ascending order, in place. */
  method SortAscending(a: array<real>)
    modifies a
    ensures Ascending(a[..])
    ensures multiset(a[..]) == old(multiset(a[..]))
  {
    var i := 1;
    while i < a.Length
      invariant a.Length == 0 || 1 <= i <= a.Length
      invariant forall p, q :: 0 <= p < q < i && q < a.Length ==> a[p] <= a[q]
      invariant multiset(a[..]) == old(multiset(a[..]))
    {
      var j := i;
      while j > 0 && a[j - 1] > a[j]
        invariant 0 <= j <= i
        invariant forall p, q :: 0 <= p < q <= i && q != j ==> a[p] <= a[q]
        invariant multiset(a[..]) == old(multiset(a[..]))
      {
        SwapDown(a, j);
        j := j - 1;
      }
      i := i + 1;
    }
  }

  /* ---------------- clipped averages ---------------- */

  /** The sum of the `k` last (largest) values. */
  function SumTop(s: seq<real>, k: nat): real
    requires k <= |s|
  {
    if k == 0 then 0.0 else SumTop(s, k - 1) + s[|s| - k]
  }

  /** The average of the `k` largest values, or the largest value when `k`
      is 0. */
  function TopMean(s: seq<real>, k: nat): real
    requires 0 < |s| && k <= |s|
  {
    if k == 0 then s[|s| - 1] else SumTop(s, k) / (k as real)
  }

  /** How many bins a share of the bins that are not skipped makes, rounded
      down. */
  function Clip(share: real, n: nat, skipped: nat): (c: nat)
    requires 0.0 <= share <= 1.0 && skipped <= n
    ensures c <= n - skipped
  {
    var m := (n - skipped) as real;
    MulLe(share, 1.0, m);
    (share * m).Floor
  }

  /** Sums the `clip` largest values from the top of the sorted array down. */
  method ClippedMean(util: array<real>, clip: nat) returns (abu: real)
    requires 0 < util.Length && clip <= util.Length
    ensures abu == TopMean(util[..], clip)
  {
    var n := util.Length;
    abu := 0.0;
    var j := n - 1;
    while j > n - 1 - clip
      invariant n - 1 - clip <= j <= n - 1
      invariant abu == SumTop(util[..], n - 1 - j)
    {
      abu := abu + util[j];
      j := j - 1;
    }
    if clip != 0 {
      abu := abu / (clip as real);
    } else {
      abu := util[n - 1];
    }
  }

  lemma QuotientAtMostOne(a: real, t: real)
    requires t > 0.0
    ensures a / t <= 1.0 <==> a <= t
  {
    var q := a / t;
    assert q * t == a;
    if q <= 1.0 {
      MulLe(q, 1.0, t);
      assert a <= t;
    } else {
      MulLt(1.0, q, t);
      assert t < a;
    }
  }

  lemma QuotientAtMostOneBelowZero(a: real, t: real)
    requires t < 0.0
    ensures a / t <= 1.0 <==> a >= t
  {
    assert a / t == (-a) / (-t);
    QuotientAtMostOne(-a, -t);
  }

  /** How far an average exceeds the target utilisation, as a share of it.
      The target is not checked: below zero the quotient turns around, and
      the overflow is 0 exactly when the average is at least the target. */
  function Overflow(abu: real, targUt: real): (o: real)
    requires targUt != 0.0
    ensures o >= 0.0
    ensures targUt > 0.0 ==> (o == 0.0 <==> abu <= targUt)
    ensures targUt < 0.0 ==> (o == 0.0 <==> abu >= targUt)
  {
    if targUt > 0.0 then
      QuotientAtMostOne(abu, targUt);
      Max(0.0, abu / targUt - 1.0)
    else
      QuotientAtMostOneBelowZero(abu, targUt);
      Max(0.0, abu / targUt - 1.0)
  }

  /** The weighted mean of the four overflows. */
  function Penalty(o2: real, o5: real, o10: real, o20: real, tech: Tech): real
    requires tech.Valid()
  {
    ((tech.abu2Wgt as real) * o2 + (tech.abu5Wgt as real) * o5 + (tech.abu10Wgt as real) * o10 + (tech.abu20Wgt as real) * o20)
      / ((tech.abu2Wgt + tech.abu5Wgt + tech.abu10Wgt + tech.abu20Wgt) as real)
  }

  /* ---------------- properties of the averages ---------------- */

  /** Over ascending values the sum of the `k` largest lies between `k` times
      the `k`-th largest and `k` times the largest. */
  lemma {:induction false} SumTopBounds(s: seq<real>, k: nat)
    requires Ascending(s) && 1 <= k <= |s|
    ensures SumTop(s, k) >= (k as real) * s[|s| - k]
    ensures SumTop(s, k) <= (k as real) * s[|s| - 1]
  {
    if k > 1 {
      SumTopBounds(s, k - 1);
      var m := (k - 1) as real;
      MulLe(s[|s| - k], s[|s| - k + 1], m);
      assert (k as real) * s[|s| - k] == m * s[|s| - k] + s[|s| - k];
      assert (k as real) * s[|s| - 1] == m * s[|s| - 1] + s[|s| - 1];
    }
  }

  /** Taking one more bin into the average never raises it. */
  lemma MeanStep(s: seq<real>, k: nat)
    requires Ascending(s) && k < |s|
    ensures TopMean(s, k + 1) <= TopMean(s, k)
  {
    if k > 0 {
      var sum, x, kr := SumTop(s, k), s[|s| - k - 1], k as real;
      SumTopBounds(s, k);
      MulLe(x, s[|s| - k], kr);
      MeanWithSmaller(sum, x, kr);
    }
  }

  /** Adding a value no larger than the mean of `k` values lowers the mean. */
  lemma MeanWithSmaller(sum: real, x: real, kr: real)
    requires kr > 0.0 && x * kr <= sum
    ensures (sum + x) / (kr + 1.0) <= sum / kr
  {
    assert (sum + x) * kr == sum * kr + x * kr;
    assert sum * (kr + 1.0) == sum * kr + sum;
    DivLeDiv(sum + x, kr + 1.0, sum, kr);
  }

  /** Over ascending values the average of the top bins falls as the share
      grows. */
  lemma {:induction false} TopMeanMonotone(s: seq<real>, k1: nat, k2: nat)
    requires Ascending(s) && 0 < |s| && k1 <= k2 <= |s|
    ensures TopMean(s, k2) <= TopMean(s, k1)
    decreases k2 - k1
  {
    if k1 < k2 {
      TopMeanMonotone(s, k1, k2 - 1);
      MeanStep(s, k2 - 1);
    }
  }

  /** A larger share never clips fewer bins. */
  lemma ClipMonotone(a: real, b: real, n: nat, skipped: nat)
    requires 0.0 <= a <= b <= 1.0 && skipped <= n
    ensures Clip(a, n, skipped) <= Clip(b, n, skipped)
  {
    var m := (n - skipped) as real;
    MulLe(a, b, m);
    FloorMonotone(a * m, b * m);
  }

  lemma FloorMonotone(x: real, y: real)
    requires x <= y
    ensures x.Floor <= y.Floor
  {
    assert x.Floor as real <= x && y < (y.Floor as real) + 1.0;
  }

  lemma {:induction false} SumTopZero(s: seq<real>, k: nat)
    requires k <= |s| && forall i :: 0 <= i < |s| ==> s[i] == 0.0
    ensures SumTop(s, k) == 0.0
  {
    if k > 0 {
      SumTopZero(s, k - 1);
    }
  }

  lemma {:induction false} SumTopNonNegative(s: seq<real>, k: nat)
    requires k <= |s| && forall i :: 0 <= i < |s| ==> s[i] >= 0.0
    ensures SumTop(s, k) >= 0.0
  {
    if k > 0 {
      SumTopNonNegative(s, k - 1);
    }
  }

  /** Non-negative utilisations have a non-negative average at every share. */
  lemma TopMeanNonNegative(s: seq<real>, k: nat)
    requires 0 < |s| && k <= |s| && forall i :: 0 <= i < |s| ==> s[i] >= 0.0
    ensures TopMean(s, k) >= 0.0
  {
    if k > 0 {
      SumTopNonNegative(s, k);
      QuotientSign(SumTop(s, k), k as real);
    }
  }

  /** All-zero utilisations average to 0 at every share. */
  lemma TopMeanZero(s: seq<real>, k: nat)
    requires 0 < |s| && k <= |s| && forall i :: 0 <= i < |s| ==> s[i] == 0.0
    ensures TopMean(s, k) == 0.0
  {
    SumTopZero(s, k);
  }

  /** The penalty is never negative, and it is 0 exactly when all four
      overflows are. */
  lemma PenaltySign(o2: real, o5: real, o10: real, o20: real, tech: Tech)
    requires tech.Valid() && o2 >= 0.0 && o5 >= 0.0 && o10 >= 0.0 && o20 >= 0.0
    ensures Penalty(o2, o5, o10, o20, tech) >= 0.0
    ensures Penalty(o2, o5, o10, o20, tech) == 0.0 <==> o2 == 0.0 && o5 == 0.0 && o10 == 0.0 && o20 == 0.0
  {
    var w2, w5, w10, w20 := tech.abu2Wgt as real, tech.abu5Wgt as real, tech.abu10Wgt as real, tech.abu20Wgt as real;
    MulLe(0.0, o2, w2);
    MulLe(0.0, o5, w5);
    MulLe(0.0, o10, w10);
    MulLe(0.0, o20, w20);
    var num := w2 * o2 + w5 * o5 + w10 * o10 + w20 * o20;
    var den := (tech.abu2Wgt + tech.abu5Wgt + tech.abu10Wgt + tech.abu20Wgt) as real;
    QuotientSign(num, den);
    assert (num / den) * den == num;
    if o2 > 0.0 { MulLt(0.0, o2, w2); }
    if o5 > 0.0 { MulLt(0.0, o5, w5); }
    if o10 > 0.0 { MulLt(0.0, o10, w10); }
    if o20 > 0.0 { MulLt(0.0, o20, w20); }
  }

  /** The averages and the penalty. */
  datatype Abu = Abu(abu1: real, abu2: real, abu5: real, abu10: real, abu20: real, penalty: real)

  /** The averages of the top 1, 2, 5, 10 and 20 percent of the bins that are
      not skipped, over the sorted utilisations, and the weighted overflow of
      the last four over the target utilisation. */
  function AbuOf(sorted: seq<real>, skipped: nat, targUt: real, tech: Tech): Abu
    requires 0 < |sorted| && skipped <= |sorted| && targUt != 0.0 && tech.Valid()
  {
    var n := |sorted|;
    var a2 := TopMean(sorted, Clip(0.02, n, skipped));
    var a5 := TopMean(sorted, Clip(0.05, n, skipped));
    var a10 := TopMean(sorted, Clip(0.10, n, skipped));
    var a20 := TopMean(sorted, Clip(0.20, n, skipped));
    Abu(TopMean(sorted, Clip(0.01, n, skipped)), a2, a5, a10, a20,
        Penalty(Overflow(a2, targUt), Overflow(a5, targUt), Overflow(a10, targUt), Overflow(a20, targUt), tech))
  }

  /** Over sorted utilisations the averages fall as the share grows and the
      penalty is never negative. With a positive target the penalty is 0
      exactly when the top 2 percent average is within the target; with a
      negative one, exactly when the top 20 percent average is at least the
      target, which non-negative utilisations always are. */
  lemma AbuFacts(sorted: seq<real>, skipped: nat, targUt: real, tech: Tech)
    requires 0 < |sorted| && skipped <= |sorted| && targUt != 0.0 && tech.Valid()
    requires Ascending(sorted)
    ensures var r := AbuOf(sorted, skipped, targUt, tech);
      r.abu1 >= r.abu2 >= r.abu5 >= r.abu10 >= r.abu20
    ensures var r := AbuOf(sorted, skipped, targUt, tech);
      r.penalty >= 0.0
    ensures var r := AbuOf(sorted, skipped, targUt, tech);
      targUt > 0.0 ==> (r.penalty == 0.0 <==> r.abu2 <= targUt)
    ensures var r := AbuOf(sorted, skipped, targUt, tech);
      targUt < 0.0 ==> (r.penalty == 0.0 <==> r.abu20 >= targUt)
    ensures targUt < 0.0 && (forall i :: 0 <= i < |sorted| ==> sorted[i] >= 0.0) ==>
      AbuOf(sorted, skipped, targUt, tech).penalty == 0.0
  {
    var n := |sorted|;
    var r := AbuOf(sorted, skipped, targUt, tech);
    ClipMonotone(0.01, 0.02, n, skipped);
    ClipMonotone(0.02, 0.05, n, skipped);
    ClipMonotone(0.05, 0.10, n, skipped);
    ClipMonotone(0.10, 0.20, n, skipped);
    TopMeanMonotone(sorted, Clip(0.01, n, skipped), Clip(0.02, n, skipped));
    TopMeanMonotone(sorted, Clip(0.02, n, skipped), Clip(0.05, n, skipped));
    TopMeanMonotone(sorted, Clip(0.05, n, skipped), Clip(0.10, n, skipped));
    TopMeanMonotone(sorted, Clip(0.10, n, skipped), Clip(0.20, n, skipped));
    PenaltySign(Overflow(r.abu2, targUt), Overflow(r.abu5, targUt), Overflow(r.abu10, targUt), Overflow(r.abu20, targUt), tech);
    if targUt < 0.0 && forall i :: 0 <= i < |sorted| ==> sorted[i] >= 0.0 {
      TopMeanNonNegative(sorted, Clip(0.20, n, skipped));
    }
  }

  /** The bins of the grid, in index order, as the rows and cells leave them. */
  ghost predicate PaintedGrid(gr: Grid, rows: seq<Row>, cells: seq<Cell>, bs: seq<Bin>)
    requires gr.Valid()
  {
    |bs| == Size(gr) && forall j: nat, k: nat :: InGrid(gr, j, k) ==> bs[Id(gr, j, k)] == PaintedBin(gr, rows, cells, j, k)
  }

  /** With every cell fixed no bin has movable area, every utilisation is 0,
      and so is every average. */
  lemma {:induction false} AllFixedNoUtilization(gr: Grid, rows: seq<Row>, cells: seq<Cell>, painted: seq<Bin>, sorted: seq<real>, tech: Tech)
    requires gr.Valid() && tech.Valid() && PaintedGrid(gr, rows, cells, painted)
    requires forall i :: 0 <= i < |cells| ==> cells[i].isFixed
    requires multiset(sorted) == multiset(Utils(painted, gr, tech))
    ensures forall i :: 0 <= i < |sorted| ==> sorted[i] == 0.0
  {
    var shapes := RowShapes(rows, gr.chip.rowHeight) + CellShapes(cells);
    assert forall i :: 0 <= i < |shapes| ==> shapes[i].kind != MovableCell by {
      forall i | 0 <= i < |shapes|
        ensures shapes[i].kind != MovableCell
      {
        if i >= |rows| {
          assert shapes[i] == CellShapes(cells)[i - |rows|];
        }
      }
    }
    forall i | 0 <= i < |sorted|
      ensures sorted[i] == 0.0
    {
      assert sorted[i] in multiset(Utils(painted, gr, tech));
      var id :| 0 <= id < |painted| && Utils(painted, gr, tech)[id] == sorted[i];
      IdsCover(gr, gr.yn, id);
      var j: nat, k: nat :| InGrid(gr, j, k) && j < gr.yn && Id(gr, j, k) == id;
      PaintNoMovable(gr, j, k, EmptyBin(gr, j, k), shapes);
      UtilizationSign(painted[id], gr, tech);
    }
  }

  /** Every utilisation of the painted grid is non-negative. */
  lemma UtilsNonNegative(gr: Grid, rows: seq<Row>, cells: seq<Cell>, painted: seq<Bin>, sorted: seq<real>, tech: Tech)
    requires gr.Valid() && tech.Valid() && PaintedGrid(gr, rows, cells, painted)
    requires multiset(sorted) == multiset(Utils(painted, gr, tech))
    ensures forall i :: 0 <= i < |sorted| ==> sorted[i] >= 0.0
  {
    forall i | 0 <= i < |sorted|
      ensures sorted[i] >= 0.0
    {
      assert sorted[i] in multiset(Utils(painted, gr, tech));
      var id :| 0 <= id < |painted| && Utils(painted, gr, tech)[id] == sorted[i];
      IdsCover(gr, gr.yn, id);
      var j: nat, k: nat :| InGrid(gr, j, k) && j < gr.yn && Id(gr, j, k) == id;
      FreeSpaceWithinArea(gr, rows, cells, j, k);
      UtilizationSign(painted[id], gr, tech);
    }
  }

  /** Measures the average bin utilisation: lays a grid of square bins over
      the chip, adds the rows' sites and the cells to them, takes each bin's
      utilisation, sorts them, and averages the top shares of the bins. */
  method MeasureAbu(chip: Chip, rows: seq<Row>, cells: seq<Cell>, unit: real, targUt: real, tech: Tech)
    returns (r: Abu, ghost painted: seq<Bin>, ghost sorted: seq<real>)
    requires chip.Valid() && unit > 0.0 && targUt != 0.0 && tech.Valid()
    ensures PaintedGrid(MakeGrid(chip, unit), rows, cells, painted)
    ensures Ascending(sorted) && multiset(sorted) == multiset(Utils(painted, MakeGrid(chip, unit), tech))
    ensures 0 < |sorted| == |painted|
    ensures r == AbuOf(sorted, SkippedCount(painted, MakeGrid(chip, unit), tech), targUt, tech)
    ensures r.abu1 >= r.abu2 >= r.abu5 >= r.abu10 >= r.abu20
    ensures r.penalty >= 0.0
    ensures targUt > 0.0 ==> (r.penalty == 0.0 <==> r.abu2 <= targUt)
    ensures targUt < 0.0 ==> r.penalty == 0.0
    ensures (forall i :: 0 <= i < |cells| ==> cells[i].isFixed) ==> r.abu1 == 0.0 && r.penalty == 0.0
  {
    var gr := MakeGrid(chip, unit);
    RowStartGrows(gr, 0, gr.yn);
    var bins := InitBins(gr);
    var rowShapes, cellShapes := RowShapes(rows, chip.rowHeight), CellShapes(cells);
    PaintAll(bins, gr, rowShapes);
    ghost var afterRows := bins[..];
    PaintAll(bins, gr, cellShapes);
    forall j: nat, k: nat | InGrid(gr, j, k)
      ensures bins[Id(gr, j, k)] == PaintedBin(gr, rows, cells, j, k)
    {
      assert afterRows[Id(gr, j, k)] == Paint(gr, j, k, EmptyBin(gr, j, k), rowShapes);
      PaintAppend(gr, j, k, EmptyBin(gr, j, k), rowShapes, cellShapes);
    }
    painted := bins[..];
    var util, skipped := Utilize(bins, gr, tech);
    SortAscending(util);
    sorted := util[..];
    var n := util.Length;
    var abu1 := ClippedMean(util, Clip(0.01, n, skipped));
    var abu2 := ClippedMean(util, Clip(0.02, n, skipped));
    var abu5 := ClippedMean(util, Clip(0.05, n, skipped));
    var abu10 := ClippedMean(util, Clip(0.10, n, skipped));
    var abu20 := ClippedMean(util, Clip(0.20, n, skipped));
    var penalty := Penalty(Overflow(abu2, targUt), Overflow(abu5, targUt), Overflow(abu10, targUt), Overflow(abu20, targUt), tech);
    r := Abu(abu1, abu2, abu5, abu10, abu20, penalty);
    UtilsNonNegative(gr, rows, cells, painted, sorted, tech);
    AbuFacts(sorted, skipped, targUt, tech);
    if forall i :: 0 <= i < |cells| ==> cells[i].isFixed {
      AllFixedNoUtilization(gr, rows, cells, painted, sorted, tech);
      TopMeanZero(sorted, Clip(0.01, n, skipped));
      TopMeanZero(sorted, Clip(0.02, n, skipped));
    }
  }
}
