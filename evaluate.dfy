/** The evaluator's circuit: the design it reads, the technology constants it
    is built with, and the figures its measurements leave behind. Each method
    is one of the circuit's measurements, composed from the steps the other
    modules model and prove. */
module Evaluate {
  import opened Model
  import PinLocs
  import Metrics
  import Steiner
  import Slicer
  import Netlist
  import Timing
  import Density

  /** How a timing measurement ends: the figures were computed, the timer
      left no results (the source returns false), or an assertion failed and
      the process stops. */
  datatype TimingOutcome = Completed | NoResults | Aborted

  /** The segment length limit in database units, truncated to an unsigned
      integer as the slicer's parameter is. */
  function SliceThreshold(tech: Tech): (t: nat)
    requires tech.Valid()
    ensures t > 0
    ensures t as real <= tech.maxWireSegmentInMicron * (tech.dist2Microns as real) < (t + 1) as real
  {
    (tech.maxWireSegmentInMicron * (tech.dist2Microns as real)).Floor
  }

  /** The half-perimeter wirelength in microns: the sum over the nets of the
      width and height of each net's bounding box. */
  function Hpwl(pins: seq<Pin>, nets: seq<Net>, tech: Tech): real
    requires tech.dist2Microns > 0 && NetsInRange(nets, |pins|)
  {
    (Metrics.SumSpanX(pins, nets) + Metrics.SumSpanY(pins, nets)) / (tech.dist2Microns as real)
  }

  /** Sums the nets' bounding boxes and converts the total to microns. */
  method HalfPerimeterWirelength(pins: seq<Pin>, nets: seq<Net>, tech: Tech) returns (hpwl: real)
    requires tech.dist2Microns > 0 && NetsInRange(nets, |pins|)
    ensures hpwl == Hpwl(pins, nets, tech)
    ensures hpwl >= 0.0
  {
    var totalX, totalY := Metrics.HalfPerimeterTotals(pins, nets);
    hpwl := (totalX + totalY) / (tech.dist2Microns as real);
    QuotientNonNegative(totalX + totalY, tech.dist2Microns as real);
  }

  /** `routed` is `nets` with each net's segments as routing on `trees`
      over the pins `placed` leaves them, Steiner points numbered by one
      counter over all nets. */
  ghost predicate Wired(placed: seq<Pin>, nets: seq<Net>, trees: seq<Steiner.Tree>, clockPort: string, routed: seq<Net>)
    requires NetsInRange(nets, |placed|) && Steiner.TreesFor(nets, trees)
  {
    && |routed| == |nets|
    && (forall k :: 0 <= k < |nets| ==> routed[k] == nets[k].(wireSegs := routed[k].wireSegs))
    && (forall k :: 0 <= k < |nets| ==>
      routed[k].wireSegs == Steiner.Routed(placed, nets[k], trees[k], clockPort, Steiner.CounterBefore(placed, nets, trees, clockPort, k)).0)
  }

  /** Reads the timer's report into the pins and folds their slacks into
      the worst and total negative slack of each corner. */
  method ReadTimingReport(report: Option<Timing.Report>, pin2id: map<string, nat>, pins: seq<Pin>)
    returns (outcome: TimingOutcome, pins': seq<Pin>, eWNS: real, eTNS: real, lWNS: real, lTNS: real)
    requires Timing.IndexInRange(pin2id, |pins|)
    ensures outcome == NoResults <==> report.None? || |report.value.tokens| == 0 || report.value.tokens[0].text == ""
    ensures outcome != NoResults ==> (outcome == Aborted <==> !Timing.ReportOk(report.value, pin2id))
    ensures outcome != Completed ==> pins' == pins
    ensures SameShape(pins, pins')
    ensures outcome == Completed ==> pins' == Timing.ReportApplied(report.value.tokens, pin2id, pins)
    ensures outcome == Completed ==> eWNS == Timing.Wns(pins', true) && eTNS == Timing.Tns(pins', true)
    ensures outcome == Completed ==> lWNS == Timing.Wns(pins', false) && lTNS == Timing.Tns(pins', false)
    ensures outcome == Completed ==> eTNS <= eWNS <= 0.0 && lTNS <= lWNS <= 0.0
  {
    var read;
    read, pins' := Timing.ReadReport(report, pin2id, pins);
    eWNS, eTNS, lWNS, lTNS := 0.0, 0.0, 0.0, 0.0;
    if read == Timing.NoResults {
      return NoResults, pins', eWNS, eTNS, lWNS, lTNS;
    } else if read == Timing.Aborted {
      return Aborted, pins', eWNS, eTNS, lWNS, lTNS;
    }
    assert SameShape(pins, pins');
    eWNS, eTNS, lWNS, lTNS := Timing.FoldSlacks(pins');
    Timing.TnsBelowWns(pins', true);
    Timing.TnsBelowWns(pins', false);
    outcome := Completed;
  }

  /** What the rest of the design assumes of the pin table: owners, port
      and net pin ids and the name index in range, every driver and cell
      pin known to its library. */
  ghost predicate PinsFit(pins: seq<Pin>, cells: seq<Cell>, nets: seq<Net>, macros: seq<Macro>,
                          PIs: seq<nat>, POs: seq<nat>, pin2id: map<string, nat>, clockPort: string)
  {
    && PinLocs.OwnersInRange(pins, |cells|)
    && IdsInRange(PIs, |pins|) && IdsInRange(POs, |pins|)
    && NetsInRange(nets, |pins|)
    && Timing.IndexInRange(pin2id, |pins|)
    && Netlist.DriversKnown(pins, PIs, macros, clockPort)
    && Netlist.CellsKnown(pins, cells, macros)
  }

  /** Two pin tables alike in all but coordinates and slacks. */
  ghost predicate SameShape(a: seq<Pin>, b: seq<Pin>)
  {
    && |a| == |b|
    && (forall k :: 0 <= k < |a| ==> a[k].name == b[k].name && a[k].driverType == b[k].driverType)
    && (forall k :: 0 <= k < |a| ==> a[k].isFixed == b[k].isFixed && a[k].owner == b[k].owner)
  }

  /** The pin table's fit depends on the pins only through their number,
      names, drivers and owners, which relocation and slack reading keep. */
  lemma ShapeKeepsFit(before: seq<Pin>, after: seq<Pin>, cells: seq<Cell>, nets: seq<Net>, macros: seq<Macro>,
                      PIs: seq<nat>, POs: seq<nat>, pin2id: map<string, nat>, clockPort: string)
    requires SameShape(before, after) && PinsFit(before, cells, nets, macros, PIs, POs, pin2id, clockPort)
    ensures PinsFit(after, cells, nets, macros, PIs, POs, pin2id, clockPort)
  {
  }

  class Circuit {
    var pins: seq<Pin>
    var cells: seq<Cell>
    var nets: seq<Net>
    var rows: seq<Row>
    var macros: seq<Macro>
    var PIs: seq<nat>
    var POs: seq<nat>
    var pin2id: map<string, nat>
    var chip: Density.Chip
    var clockPort: string
    var clockPeriod: real
    const tech: Tech

    var totalStWL: real
    var displacement: real
    var totalHPWL: real
    var eWNS: real
    var eTNS: real
    var lWNS: real
    var lTNS: real
    var abuPenalty: real

    /** The worst and total negative slacks of both corners are those of
        the pins' slacks. */
    ghost predicate SlacksFolded()
      reads this
    {
      && eWNS == Timing.Wns(pins, true) && eTNS == Timing.Tns(pins, true)
      && lWNS == Timing.Wns(pins, false) && lTNS == Timing.Tns(pins, false)
    }

    /** Every index in the design names an existing pin, cell or macro, and
        the constants are in range. */
    ghost predicate Valid()
      reads this
    {
      && tech.Valid()
      && chip.Valid()
      && PinsFit(pins, cells, nets, macros, PIs, POs, pin2id, clockPort)
    }

    constructor (pins: seq<Pin>, cells: seq<Cell>, nets: seq<Net>, rows: seq<Row>, macros: seq<Macro>,
                 PIs: seq<nat>, POs: seq<nat>, pin2id: map<string, nat>, chip: Density.Chip,
                 clockPort: string, clockPeriod: real, tech: Tech)
      requires tech.Valid() && chip.Valid()
      requires PinLocs.OwnersInRange(pins, |cells|)
      requires IdsInRange(PIs, |pins|) && IdsInRange(POs, |pins|) && NetsInRange(nets, |pins|)
      requires Timing.IndexInRange(pin2id, |pins|)
      requires Netlist.DriversKnown(pins, PIs, macros, clockPort) && Netlist.CellsKnown(pins, cells, macros)
      ensures Valid()
      ensures this.pins == pins && this.cells == cells && this.nets == nets && this.rows == rows
      ensures this.macros == macros && this.PIs == PIs && this.POs == POs && this.pin2id == pin2id
      ensures this.chip == chip && this.clockPort == clockPort && this.clockPeriod == clockPeriod && this.tech == tech
      ensures totalStWL == 0.0 && displacement == 0.0 && totalHPWL == 0.0 && abuPenalty == 0.0
      ensures eWNS == 0.0 && eTNS == 0.0 && lWNS == 0.0 && lTNS == 0.0
    {
      this.pins, this.cells, this.nets, this.rows, this.macros := pins, cells, nets, rows, macros;
      this.PIs, this.POs, this.pin2id, this.chip := PIs, POs, pin2id, chip;
      this.clockPort, this.clockPeriod, this.tech := clockPort, clockPeriod, tech;
      totalStWL, displacement, totalHPWL, abuPenalty := 0.0, 0.0, 0.0, 0.0;
      eWNS, eTNS, lWNS, lTNS := 0.0, 0.0, 0.0, 0.0;
    }

    /** Places every pin from its owner cell and offset: one pass of
        `PinLocs.RelocateAll`, which moves fixed and unowned pins by their
        offset again on every call. */
    method UpdatePinLocs()
      requires Valid()
      modifies this`pins
      ensures Valid()
      ensures pins == PinLocs.RelocateAll(old(pins), cells)
    {
      ghost var initial := pins;
      var i := 0;
      while i < |pins|
        invariant 0 <= i <= |pins| == |initial|
        invariant forall k :: 0 <= k < i ==> pins[k] == PinLocs.Relocate(initial[k], cells)
        invariant forall k :: i <= k < |pins| ==> pins[k] == initial[k]
      {
        var p := pins[i];
        if p.isFixed || p.owner.None? {
          pins := pins[i := p.(x := p.x + p.xOffset, y := p.y + p.yOffset)];
        } else {
          var c := cells[p.owner.value];
          pins := pins[i := p.(x := c.x + p.xOffset, y := c.y + p.yOffset)];
        }
        i := i + 1;
      }
      assert pins == PinLocs.RelocateAll(initial, cells);
      assert SameShape(initial, pins);
      ShapeKeepsFit(initial, pins, cells, nets, macros, PIs, POs, pin2id, clockPort);
    }

    /** The largest displacement of a movable cell from its initial
        position, in microns. */
    method MeasureDisplacement()
      requires Valid()
      modifies this`displacement
      ensures displacement >= 0.0
      ensures forall i :: 0 <= i < |cells| && !cells[i].isFixed ==>
                Metrics.Displacement(cells[i]) / (tech.dist2Microns as real) <= displacement
      ensures displacement == 0.0 ||
              exists i :: 0 <= i < |cells| && !cells[i].isFixed && displacement == Metrics.Displacement(cells[i]) / (tech.dist2Microns as real)
    {
      var d := Metrics.MaxDisplacement(cells);
      var units := tech.dist2Microns as real;
      displacement := d / units;
      QuotientNonNegative(d, units);
      if d != 0.0 {
        var i :| 0 <= i < |cells| && !cells[i].isFixed && d == Metrics.Displacement(cells[i]);
        assert displacement == Metrics.Displacement(cells[i]) / units;
      }
      forall i | 0 <= i < |cells| && !cells[i].isFixed
        ensures Metrics.Displacement(cells[i]) / units <= displacement
      {
        MulLe(Metrics.Displacement(cells[i]), d, units);
        DivLeDiv(Metrics.Displacement(cells[i]), units, d, units);
      }
    }

    /** The half-perimeter wirelength in microns, after placing the pins. */
    method MeasureHPWL()
      requires Valid()
      modifies this`pins, this`totalHPWL
      ensures Valid()
      ensures pins == PinLocs.RelocateAll(old(pins), cells)
      ensures totalHPWL == Hpwl(pins, nets, tech)
    {
      UpdatePinLocs();
      totalHPWL := HalfPerimeterWirelength(pins, nets, tech);
    }

    /** The density penalty: the weighted overflow of the average bin
        utilisation over the target, on bins `unit` rows wide. */
    method MeasureAbu(unit: real, targUt: real) returns (report: Density.Abu, ghost painted: seq<Density.Bin>, ghost sorted: seq<real>)
      requires Valid() && unit > 0.0 && targUt != 0.0
      modifies this`abuPenalty
      ensures Density.PaintedGrid(Density.MakeGrid(chip, unit), rows, cells, painted)
      ensures Density.Ascending(sorted)
      ensures multiset(sorted) == multiset(Density.Utils(painted, Density.MakeGrid(chip, unit), tech))
      ensures 0 < |sorted| == |painted|
      ensures report == Density.AbuOf(sorted, Density.SkippedCount(painted, Density.MakeGrid(chip, unit), tech), targUt, tech)
      ensures abuPenalty == report.penalty
      ensures report.abu1 >= report.abu2 >= report.abu5 >= report.abu10 >= report.abu20
      ensures abuPenalty >= 0.0
      ensures targUt > 0.0 ==> (abuPenalty == 0.0 <==> report.abu2 <= targUt)
      ensures targUt < 0.0 ==> abuPenalty == 0.0
      ensures (forall i :: 0 <= i < |cells| ==> cells[i].isFixed) ==> abuPenalty == 0.0
    {
      report, painted, sorted := Density.MeasureAbu(chip, rows, cells, unit, targUt, tech);
      abuPenalty := report.penalty;
    }

    /** Routes every net on its tree (the source's build_steiner): each
        net's segments are rebuilt from the pins' current places, and the
        total routed length is kept in microns. */
    method BuildSteiner(trees: seq<Steiner.Tree>)
      requires Valid() && Steiner.TreesFor(nets, trees)
      modifies this`nets, this`totalStWL
      ensures Valid()
      ensures |nets| == |old(nets)|
      ensures forall k :: 0 <= k < |nets| ==> nets[k] == old(nets)[k].(wireSegs := nets[k].wireSegs)
      ensures forall k :: 0 <= k < |nets| ==>
        nets[k].wireSegs == Steiner.Routed(pins, old(nets)[k], trees[k], clockPort, Steiner.CounterBefore(pins, old(nets), trees, clockPort, k)).0
      ensures totalStWL == Steiner.SumNetLength(pins, old(nets), trees) / (tech.dist2Microns as real)
    {
      var r, total, spCount, maxClk := Steiner.BuildSteiner(pins, nets, trees, clockPort, tech.dist2Microns);
      assert NetsInRange(r, |pins|) by {
        assert forall k :: 0 <= k < |r| ==> r[k].source == nets[k].source && r[k].sinks == nets[k].sinks;
      }
      nets, totalStWL := r, total;
    }

    /** Slices every segment longer than the threshold (the source's
        slice_longwires); `ok` is false where a generated name is too long and
        the source's assertion stops the process. */
    method SliceLongwires() returns (ok: bool)
      requires Valid()
      modifies this`nets
      ensures Valid()
      ensures ok <==> Slicer.AllNamesFit(old(nets), SliceThreshold(tech), tech.maxPinNameLength)
      ensures ok ==> nets == Slicer.SlicedNets(old(nets), SliceThreshold(tech))
      ensures !ok ==> nets == old(nets)
    {
      var sliced;
      ok, sliced := Slicer.SliceNets(nets, SliceThreshold(tech), tech.maxPinNameLength);
      if ok {
        assert NetsInRange(sliced, |pins|) by {
          assert forall k :: 0 <= k < |sliced| ==> sliced[k].source == nets[k].source && sliced[k].sinks == nets[k].sinks;
        }
        nets := sliced;
      }
    }

    /** The timer's netlist (written to a file in the source): None where a
        net's name or size is over the limits and the source's assertion
        stops the process. */
    method WriteNetlist() returns (netlist: Option<seq<Netlist.Line>>)
      requires Valid()
      ensures netlist.None? <==> !(Netlist.NetNamesFit(nets, tech) && forall k :: 0 <= k < |nets| ==> Netlist.NetFits(nets[k], tech))
      ensures netlist.Some? ==> Netlist.IsNetlist(netlist.value, pins, PIs, POs, nets, tech, clockPort)
    {
      netlist := Netlist.BuildNetlist(pins, cells, nets, macros, PIs, POs, tech, clockPort, clockPeriod);
    }

    /** Reads the timer's report (a parameter: running the timer is outside
        the model) into the pins' slacks, and folds the endpoint slacks into
        the worst and total negative slack of each corner. */
    method ReadSlacks(report: Option<Timing.Report>) returns (outcome: TimingOutcome)
      requires Valid()
      modifies this`pins, this`eWNS, this`eTNS, this`lWNS, this`lTNS
      ensures Valid()
      ensures outcome == NoResults <==> report.None? || |report.value.tokens| == 0 || report.value.tokens[0].text == ""
      ensures outcome != NoResults ==> (outcome == Aborted <==> !Timing.ReportOk(report.value, pin2id))
      ensures outcome != Completed ==> pins == old(pins)
      ensures outcome == Completed ==> pins == Timing.ReportApplied(report.value.tokens, pin2id, old(pins))
      ensures outcome == Completed ==> SlacksFolded()
      ensures outcome == Completed ==> eTNS <= eWNS <= 0.0 && lTNS <= lWNS <= 0.0
      ensures outcome != Completed ==> eWNS == old(eWNS) && eTNS == old(eTNS) && lWNS == old(lWNS) && lTNS == old(lTNS)
    {
      var slacked, ew, et, lw, lt;
      outcome, slacked, ew, et, lw, lt := ReadTimingReport(report, pin2id, pins);
      if outcome == Completed {
        ShapeKeepsFit(pins, slacked, cells, nets, macros, PIs, POs, pin2id, clockPort);
        pins, eWNS, eTNS, lWNS, lTNS := slacked, ew, et, lw, lt;
      }
    }

    /** The wires the timing measurement works on: places the pins, routes
        the nets on the given trees and slices long segments; `ok` is false
        where slicing stops the process. */
    method PrepareWires(trees: seq<Steiner.Tree>) returns (ok: bool, ghost placed: seq<Pin>, ghost routed: seq<Net>)
      requires Valid() && Steiner.TreesFor(nets, trees)
      modifies this`pins, this`nets, this`totalStWL
      ensures Valid()
      ensures pins == placed == PinLocs.RelocateAll(old(pins), cells)
      ensures Wired(placed, old(nets), trees, clockPort, routed)
      ensures totalStWL == Steiner.SumNetLength(placed, old(nets), trees) / (tech.dist2Microns as real)
      ensures ok <==> Slicer.AllNamesFit(routed, SliceThreshold(tech), tech.maxPinNameLength)
      ensures ok ==> nets == Slicer.SlicedNets(routed, SliceThreshold(tech))
    {
      UpdatePinLocs();
      placed := pins;
      BuildSteiner(trees);
      routed := nets;
      ok := SliceLongwires();
    }

    /** The timing measurement: prepares the wires, writes the netlist and
        reads the timer's report. */
    method MeasureTiming(trees: seq<Steiner.Tree>, report: Option<Timing.Report>)
      returns (outcome: TimingOutcome, netlist: Option<seq<Netlist.Line>>, ghost placed: seq<Pin>, ghost routed: seq<Net>)
      requires Valid() && Steiner.TreesFor(nets, trees)
      modifies this`pins, this`nets, this`totalStWL, this`eWNS, this`eTNS, this`lWNS, this`lTNS
      ensures Valid()
      ensures placed == PinLocs.RelocateAll(old(pins), cells)
      ensures Wired(placed, old(nets), trees, clockPort, routed)
      ensures totalStWL == Steiner.SumNetLength(placed, old(nets), trees) / (tech.dist2Microns as real)
      ensures !Slicer.AllNamesFit(routed, SliceThreshold(tech), tech.maxPinNameLength) ==> outcome == Aborted && netlist.None?
      ensures netlist.Some? ==> nets == Slicer.SlicedNets(routed, SliceThreshold(tech))
      ensures netlist.None? ==> outcome == Aborted
      ensures |placed| == |pins|
      ensures Slicer.AllNamesFit(routed, SliceThreshold(tech), tech.maxPinNameLength) ==>
        (netlist.None? <==> !(Netlist.NetNamesFit(nets, tech) && forall k :: 0 <= k < |nets| ==> Netlist.NetFits(nets[k], tech)))
      ensures netlist.Some? ==> Netlist.IsNetlist(netlist.value, placed, PIs, POs, nets, tech, clockPort)
      ensures outcome != Completed ==> eWNS == old(eWNS) && eTNS == old(eTNS) && lWNS == old(lWNS) && lTNS == old(lTNS)
      ensures outcome != Completed ==> pins == placed
      ensures netlist.Some? ==>
        (outcome == NoResults <==> report.None? || |report.value.tokens| == 0 || report.value.tokens[0].text == "")
      ensures netlist.Some? && outcome != NoResults ==> (outcome == Aborted <==> !Timing.ReportOk(report.value, pin2id))
      ensures outcome == Completed ==>
                report.Some? && pins == Timing.ReportApplied(report.value.tokens, pin2id, placed)
      ensures outcome == Completed ==> SlacksFolded()
    {
      var ok;
      ok, placed, routed := PrepareWires(trees);
      if !ok {
        return Aborted, None, placed, routed;
      }
      outcome, netlist := TimeNetlist(report);
    }

    /** The timer's side of the measurement: writes the netlist and, when
        it could be written, reads the timer's report. */
    method TimeNetlist(report: Option<Timing.Report>) returns (outcome: TimingOutcome, netlist: Option<seq<Netlist.Line>>)
      requires Valid()
      modifies this`pins, this`eWNS, this`eTNS, this`lWNS, this`lTNS
      ensures Valid()
      ensures |pins| == |old(pins)|
      ensures netlist.None? <==> !(Netlist.NetNamesFit(nets, tech) && forall k :: 0 <= k < |nets| ==> Netlist.NetFits(nets[k], tech))
      ensures netlist.Some? ==> Netlist.IsNetlist(netlist.value, old(pins), PIs, POs, nets, tech, clockPort)
      ensures netlist.None? ==> outcome == Aborted
      ensures netlist.Some? ==>
        (outcome == NoResults <==> report.None? || |report.value.tokens| == 0 || report.value.tokens[0].text == "")
      ensures netlist.Some? && outcome != NoResults ==> (outcome == Aborted <==> !Timing.ReportOk(report.value, pin2id))
      ensures outcome != Completed ==> pins == old(pins)
      ensures outcome != Completed ==> eWNS == old(eWNS) && eTNS == old(eTNS) && lWNS == old(lWNS) && lTNS == old(lTNS)
      ensures outcome == Completed ==> report.Some? && pins == Timing.ReportApplied(report.value.tokens, pin2id, old(pins))
      ensures outcome == Completed ==> SlacksFolded()
    {
      netlist := WriteNetlist();
      if netlist.None? {
        return Aborted, netlist;
      }
      outcome := ReadSlacks(report);
    }
  }
}
