/** Pin locations from owner cells and offsets. A movable pin with an owner is
    placed at its cell's position plus its offset; a fixed or unowned pin has
    its offset ADDED to its current position, so each pass moves it again. */
module PinLocs {
  import opened Model

  predicate OwnersInRange(pins: seq<Pin>, numCells: nat) {
    forall i :: 0 <= i < |pins| ==> OwnerInRange(pins[i], numCells)
  }

  /** Whether a pass adds the offset to the pin's own position. */
  predicate Additive(p: Pin) {
    p.isFixed || p.owner.None?
  }

  /** One pin after one pass; only the location changes. */
  function Relocate(p: Pin, cells: seq<Cell>): (q: Pin)
    requires OwnerInRange(p, |cells|)
    ensures q.(x := p.x, y := p.y) == p
  {
    if Additive(p) then p.(x := p.x + p.xOffset, y := p.y + p.yOffset)
    else p.(x := cells[p.owner.value].x + p.xOffset, y := cells[p.owner.value].y + p.yOffset)
  }

  /** Every pin after one pass. */
  function RelocateAll(pins: seq<Pin>, cells: seq<Cell>): (r: seq<Pin>)
    requires OwnersInRange(pins, |cells|)
    ensures |r| == |pins|
    ensures forall i :: 0 <= i < |pins| ==> r[i].(x := pins[i].x, y := pins[i].y) == pins[i]
    ensures OwnersInRange(r, |cells|)
  {
    seq(|pins|, i requires 0 <= i < |pins| => Relocate(pins[i], cells))
  }

  /** The pins after `n` successive passes over unchanged cells. */
  function RelocateTimes(pins: seq<Pin>, cells: seq<Cell>, n: nat): (r: seq<Pin>)
    requires OwnersInRange(pins, |cells|)
    ensures |r| == |pins| && OwnersInRange(r, |cells|)
  {
    if n == 0 then pins else RelocateAll(RelocateTimes(pins, cells, n - 1), cells)
  }

  /** After n >= 1 passes an owned movable pin sits at its cell plus its offset,
      however many passes ran, while a fixed or unowned pin has moved by n
      offsets. */
  lemma {:induction false} RepeatedPasses(pins: seq<Pin>, cells: seq<Cell>, n: nat, i: nat)
    requires OwnersInRange(pins, |cells|)
    requires i < |pins|
    ensures var p, q := pins[i], RelocateTimes(pins, cells, n)[i];
      if Additive(p) then q.x == p.x + (n as real) * p.xOffset && q.y == p.y + (n as real) * p.yOffset
      else n >= 1 ==> q.x == cells[p.owner.value].x + p.xOffset && q.y == cells[p.owner.value].y + p.yOffset
  {
    if n > 0 {
      RepeatedPasses(pins, cells, n - 1, i);
      var prev := RelocateTimes(pins, cells, n - 1);
      assert RelocateTimes(pins, cells, n)[i] == Relocate(prev[i], cells);
      assert prev[i].(x := pins[i].x, y := pins[i].y) == pins[i] by {
        RelocateTimesKeeps(pins, cells, n - 1, i);
      }
    }
  }

  /** Passes change nothing but locations. */
  lemma {:induction false} RelocateTimesKeeps(pins: seq<Pin>, cells: seq<Cell>, n: nat, i: nat)
    requires OwnersInRange(pins, |cells|)
    requires i < |pins|
    ensures RelocateTimes(pins, cells, n)[i].(x := pins[i].x, y := pins[i].y) == pins[i]
  {
    if n > 0 {
      RelocateTimesKeeps(pins, cells, n - 1, i);
    }
  }

  /** Two passes in a row (the wirelength measurement followed by the timing
      measurement) leave owned pins where one pass put them but move every
      fixed or unowned pin by its offset once more. */
  lemma SecondPassShiftsFixedPins(pins: seq<Pin>, cells: seq<Cell>, i: nat)
    requires OwnersInRange(pins, |cells|)
    requires i < |pins|
    ensures var once, twice := RelocateAll(pins, cells), RelocateAll(RelocateAll(pins, cells), cells);
      if Additive(pins[i]) then twice[i].x == once[i].x + pins[i].xOffset && twice[i].y == once[i].y + pins[i].yOffset
      else twice[i] == once[i]
  {
    assert RelocateTimes(pins, cells, 1) == RelocateAll(pins, cells) by {
      assert RelocateTimes(pins, cells, 0) == pins;
    }
    assert RelocateTimes(pins, cells, 2) == RelocateAll(RelocateAll(pins, cells), cells);
    RepeatedPasses(pins, cells, 1, i);
    RepeatedPasses(pins, cells, 2, i);
  }
}
