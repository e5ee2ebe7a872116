/** The two simple placement metrics: the largest displacement of a movable
    cell from its initial position, and the half-perimeter wirelength. */
module Metrics {
  import opened Model

  /** How far a cell has moved from its initial position (database units). */
  function Displacement(c: Cell): real
  {
    Manhattan(c.initX, c.initY, c.x, c.y)
  }

  /** The largest displacement over the movable cells; 0 when there are none. */
  method MaxDisplacement(cells: seq<Cell>) returns (d: real)
    ensures d >= 0.0
    ensures forall i :: 0 <= i < |cells| && !cells[i].isFixed ==> Displacement(cells[i]) <= d
    ensures d == 0.0 || exists i :: 0 <= i < |cells| && !cells[i].isFixed && d == Displacement(cells[i])
  {
    d := 0.0;
    var i := 0;
    while i < |cells|
      invariant 0 <= i <= |cells|
      invariant d >= 0.0
      invariant forall k :: 0 <= k < i && !cells[k].isFixed ==> Displacement(cells[k]) <= d
      invariant d == 0.0 || exists k :: 0 <= k < i && !cells[k].isFixed && d == Displacement(cells[k])
    {
      if !cells[i].isFixed {
        d := Max(d, Displacement(cells[i]));
      }
      i := i + 1;
    }
  }

  function SeqMax(s: seq<real>): (m: real)
    requires |s| > 0
    ensures forall k :: 0 <= k < |s| ==> s[k] <= m
    ensures m in s
  {
    if |s| == 1 then s[0] else Max(SeqMax(s[..|s| - 1]), s[|s| - 1])
  }

  function SeqMin(s: seq<real>): (m: real)
    requires |s| > 0
    ensures forall k :: 0 <= k < |s| ==> m <= s[k]
    ensures m in s
  {
    if |s| == 1 then s[0] else Min(SeqMin(s[..|s| - 1]), s[|s| - 1])
  }

  function Xs(pins: seq<Pin>, ids: seq<nat>): (xs: seq<real>)
    requires IdsInRange(ids, |pins|)
    ensures |xs| == |ids|
  {
    seq(|ids|, k requires 0 <= k < |ids| => pins[ids[k]].x)
  }

  function Ys(pins: seq<Pin>, ids: seq<nat>): (ys: seq<real>)
    requires IdsInRange(ids, |pins|)
    ensures |ys| == |ids|
  {
    seq(|ids|, k requires 0 <= k < |ids| => pins[ids[k]].y)
  }

  /** Width of a net's bounding box. */
  function SpanX(pins: seq<Pin>, n: Net): real
    requires NetInRange(n, |pins|)
  {
    SeqMax(Xs(pins, NetPins(n))) - SeqMin(Xs(pins, NetPins(n)))
  }

  /** Height of a net's bounding box. */
  function SpanY(pins: seq<Pin>, n: Net): real
    requires NetInRange(n, |pins|)
  {
    SeqMax(Ys(pins, NetPins(n))) - SeqMin(Ys(pins, NetPins(n)))
  }

  function SumSpanX(pins: seq<Pin>, nets: seq<Net>): real
    requires NetsInRange(nets, |pins|)
  {
    if |nets| == 0 then 0.0 else SumSpanX(pins, nets[..|nets| - 1]) + SpanX(pins, nets[|nets| - 1])
  }

  function SumSpanY(pins: seq<Pin>, nets: seq<Net>): real
    requires NetsInRange(nets, |pins|)
  {
    if |nets| == 0 then 0.0 else SumSpanY(pins, nets[..|nets| - 1]) + SpanY(pins, nets[|nets| - 1])
  }

  /** One more value widens the running maximum and minimum by itself. */
  lemma Widen(s: seq<real>, j: nat)
    requires 0 < j < |s|
    ensures SeqMax(s[..j + 1]) == Max(SeqMax(s[..j]), s[j])
    ensures SeqMin(s[..j + 1]) == Min(SeqMin(s[..j]), s[j])
  {
    assert s[..j + 1][..j] == s[..j];
  }

  /** Sink `j` widens the box of the source and the sinks before it by its
      own coordinates. */
  lemma WidenBox(pins: seq<Pin>, n: Net, j: nat)
    requires NetInRange(n, |pins|) && j < |n.sinks|
    ensures var xs, p := Xs(pins, NetPins(n)), pins[n.sinks[j]];
      SeqMax(xs[..j + 2]) == Max(SeqMax(xs[..j + 1]), p.x) && SeqMin(xs[..j + 2]) == Min(SeqMin(xs[..j + 1]), p.x)
    ensures var ys, p := Ys(pins, NetPins(n)), pins[n.sinks[j]];
      SeqMax(ys[..j + 2]) == Max(SeqMax(ys[..j + 1]), p.y) && SeqMin(ys[..j + 2]) == Min(SeqMin(ys[..j + 1]), p.y)
  {
    var xs, ys := Xs(pins, NetPins(n)), Ys(pins, NetPins(n));
    assert xs[j + 1] == pins[n.sinks[j]].x && ys[j + 1] == pins[n.sinks[j]].y;
    Widen(xs, j + 1);
    Widen(ys, j + 1);
  }

  /** The bounding box of one net: starts at the source and widens over the sinks. */
  method NetBox(pins: seq<Pin>, n: Net) returns (minX: real, maxX: real, minY: real, maxY: real)
    requires NetInRange(n, |pins|)
    ensures maxX == SeqMax(Xs(pins, NetPins(n))) && minX == SeqMin(Xs(pins, NetPins(n)))
    ensures maxY == SeqMax(Ys(pins, NetPins(n))) && minY == SeqMin(Ys(pins, NetPins(n)))
  {
    ghost var xs, ys := Xs(pins, NetPins(n)), Ys(pins, NetPins(n));
    maxX, minX := pins[n.source].x, pins[n.source].x;
    maxY, minY := pins[n.source].y, pins[n.source].y;
    var j := 0;
    while j < |n.sinks|
      invariant 0 <= j <= |n.sinks|
      invariant maxX == SeqMax(xs[..j + 1]) && minX == SeqMin(xs[..j + 1])
      invariant maxY == SeqMax(ys[..j + 1]) && minY == SeqMin(ys[..j + 1])
    {
      var p := pins[n.sinks[j]];
      WidenBox(pins, n, j);
      maxX := Max(maxX, p.x);
      minX := Min(minX, p.x);
      maxY := Max(maxY, p.y);
      minY := Min(minY, p.y);
      j := j + 1;
    }
    assert xs[..j + 1] == xs && ys[..j + 1] == ys;
  }

  /** The per-axis totals of the bounding-box extents over all nets. */
  method HalfPerimeterTotals(pins: seq<Pin>, nets: seq<Net>) returns (totalX: real, totalY: real)
    requires NetsInRange(nets, |pins|)
    ensures totalX == SumSpanX(pins, nets) && totalY == SumSpanY(pins, nets)
    ensures totalX >= 0.0 && totalY >= 0.0
  {
    totalX, totalY := 0.0, 0.0;
    var k := 0;
    while k < |nets|
      invariant 0 <= k <= |nets|
      invariant totalX == SumSpanX(pins, nets[..k]) && totalY == SumSpanY(pins, nets[..k])
      invariant totalX >= 0.0 && totalY >= 0.0
    {
      var minX, maxX, minY, maxY := NetBox(pins, nets[k]);
      assert nets[..k + 1][..k] == nets[..k];
      totalX := totalX + (maxX - minX);
      totalY := totalY + (maxY - minY);
      k := k + 1;
    }
    assert nets[..k] == nets;
  }

  /** The bounding box is at least as long as the rectilinear distance between
      any two pins of the net. */
  lemma HalfPerimeterCoversPins(pins: seq<Pin>, n: Net, a: nat, b: nat)
    requires NetInRange(n, |pins|)
    requires a < |n.sinks| + 1 && b < |n.sinks| + 1
    ensures var pa, pb := pins[NetPins(n)[a]], pins[NetPins(n)[b]];
      Manhattan(pa.x, pa.y, pb.x, pb.y) <= SpanX(pins, n) + SpanY(pins, n)
  {
    var xs, ys := Xs(pins, NetPins(n)), Ys(pins, NetPins(n));
    assert xs[a] <= SeqMax(xs) && SeqMin(xs) <= xs[b];
    assert xs[b] <= SeqMax(xs) && SeqMin(xs) <= xs[a];
    assert ys[a] <= SeqMax(ys) && SeqMin(ys) <= ys[b];
    assert ys[b] <= SeqMax(ys) && SeqMin(ys) <= ys[a];
  }

  /** For a net with one sink the half perimeter is exactly the rectilinear
      distance between source and sink. */
  lemma TwoPinHalfPerimeter(pins: seq<Pin>, n: Net)
    requires NetInRange(n, |pins|)
    requires |n.sinks| == 1
    ensures var s, t := pins[n.source], pins[n.sinks[0]];
      SpanX(pins, n) + SpanY(pins, n) == Manhattan(s.x, s.y, t.x, t.y)
  {
    var xs, ys := Xs(pins, NetPins(n)), Ys(pins, NetPins(n));
    assert xs[..1] == [xs[0]] && ys[..1] == [ys[0]];
  }
}
