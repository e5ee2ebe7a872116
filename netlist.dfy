/** The interconnect netlist handed to the static timer, as a sequence of
    line records rather than text. It declares the primary inputs and
    outputs, one driver instance per non-clock primary input, one instance
    per cell with ports, a zero-resistance wire from each non-clock primary
    input to its driver, and for every net a wire with one resistor per
    segment and one capacitor per node (half of each touching segment's wire
    capacitance, plus the output load at primary outputs, written once for
    the whole netlist). Clock, arrival, slew and required-time lines close
    it. */
module Netlist {
  import opened Model

  datatype Line =
    | InputLine(name: string)
    | OutputLine(name: string)
    | InstanceLine(macroName: string, conns: seq<(string, string)>)
    | WireLine(driver: string, taps: seq<string>)
    | CapLine(node: string, cap: real)
    | ResLine(node1: string, node2: string, res: real)
    | ClockLine(port: string, period: real)
    | AtLine(name: string, delay: real)
    | SlewLine(name: string, fall: real, rise: real)
    | RatLine(name: string, early: bool, time: real)

  /* ---------------- wire parasitics ---------------- */

  /** Resistance per micron of a net's wires: the global layer's for the net
      named like the clock port, the local layer's otherwise. */
  function ResRate(n: Net, tech: Tech, clockPort: string): real
  {
    if n.name == clockPort then tech.globalResPerMicron else tech.localResPerMicron
  }

  function CapRate(n: Net, tech: Tech, clockPort: string): real
  {
    if n.name == clockPort then tech.globalCapPerMicron else tech.localCapPerMicron
  }

  /** Length of a segment in microns. */
  function Microns(s: Segment, tech: Tech): real
    requires tech.Valid()
  {
    s.len / (tech.dist2Microns as real)
  }

  /** The half of a segment's wire capacitance that goes to each of its ends. */
  function HalfCap(s: Segment, rate: real, tech: Tech): real
    requires tech.Valid()
  {
    Microns(s, tech) * rate * 0.5
  }

  /** The resistance of a segment: its length in microns times the
      per-micron resistance. */
  function SegRes(s: Segment, rate: real, tech: Tech): real
    requires tech.Valid()
  {
    Microns(s, tech) * rate
  }

  /** Capacitance accumulated so far at a node; absent nodes read as 0. */
  function Get(m: map<string, real>, k: string): real
  {
    if k in m then m[k] else 0.0
  }

  /** Adds half of a segment's capacitance to each of its ends, one end after
      the other. */
  function AddSeg(pc: map<string, real>, s: Segment, half: real): map<string, real>
  {
    var pc1 := pc[s.end1 := Get(pc, s.end1) + half];
    pc1[s.end2 := Get(pc1, s.end2) + half]
  }

  function AddSegs(pc: map<string, real>, segs: seq<Segment>, rate: real, tech: Tech): map<string, real>
    requires tech.Valid()
  {
    if |segs| == 0 then pc
    else
      var s := segs[|segs| - 1];
      AddSeg(AddSegs(pc, segs[..|segs| - 1], rate, tech), s, HalfCap(s, rate, tech))
  }

  function AddNets(pc: map<string, real>, nets: seq<Net>, tech: Tech, clockPort: string): map<string, real>
    requires tech.Valid()
  {
    if |nets| == 0 then pc
    else
      var n := nets[|nets| - 1];
      AddSegs(AddNets(pc, nets[..|nets| - 1], tech, clockPort), n.wireSegs, CapRate(n, tech, clockPort), tech)
  }

  /** What a segment puts on a node: `half` for each of its ends that is
      the node. */
  function EndShare(s: Segment, name: string, half: real): real
  {
    (if s.end1 == name then half else 0.0) + (if s.end2 == name then half else 0.0)
  }

  /** The wire capacitance a list of segments puts on a node. */
  function SegsCap(segs: seq<Segment>, name: string, rate: real, tech: Tech): real
    requires tech.Valid()
  {
    if |segs| == 0 then 0.0
    else
      var s := segs[|segs| - 1];
      SegsCap(segs[..|segs| - 1], name, rate, tech) + EndShare(s, name, HalfCap(s, rate, tech))
  }

  /** The wire capacitance all nets put on a node. */
  function WireCap(nets: seq<Net>, name: string, tech: Tech, clockPort: string): real
    requires tech.Valid()
  {
    if |nets| == 0 then 0.0
    else
      var n := nets[|nets| - 1];
      WireCap(nets[..|nets| - 1], name, tech, clockPort) + SegsCap(n.wireSegs, name, CapRate(n, tech, clockPort), tech)
  }

  /** The nodes the segments touch. */
  function SegEnds(segs: seq<Segment>): set<string>
  {
    if |segs| == 0 then {} else SegEnds(segs[..|segs| - 1]) + {segs[|segs| - 1].end1, segs[|segs| - 1].end2}
  }

  function EndsOf(nets: seq<Net>): set<string>
  {
    if |nets| == 0 then {} else EndsOf(nets[..|nets| - 1]) + SegEnds(nets[|nets| - 1].wireSegs)
  }

  /** The accumulation is the half-pi model: each node's capacitance is what
      it started with plus half of the wire capacitance of every segment
      touching it, counted once per touching end. */
  lemma {:induction false} AddSegsAt(pc: map<string, real>, segs: seq<Segment>, rate: real, tech: Tech, name: string)
    requires tech.Valid()
    ensures Get(AddSegs(pc, segs, rate, tech), name) == Get(pc, name) + SegsCap(segs, name, rate, tech)
    ensures AddSegs(pc, segs, rate, tech).Keys == pc.Keys + SegEnds(segs)
  {
    if |segs| > 0 {
      var s := segs[|segs| - 1];
      AddSegsAt(pc, segs[..|segs| - 1], rate, tech, name);
      AddSegAt(AddSegs(pc, segs[..|segs| - 1], rate, tech), s, HalfCap(s, rate, tech), name);
    }
  }

  lemma AddSegAt(pc: map<string, real>, s: Segment, half: real, name: string)
    ensures Get(AddSeg(pc, s, half), name) == Get(pc, name) + EndShare(s, name, half)
    ensures AddSeg(pc, s, half).Keys == pc.Keys + {s.end1, s.end2}
  {
  }

  lemma {:induction false} AddNetsAt(pc: map<string, real>, nets: seq<Net>, tech: Tech, clockPort: string, name: string)
    requires tech.Valid()
    ensures Get(AddNets(pc, nets, tech, clockPort), name) == Get(pc, name) + WireCap(nets, name, tech, clockPort)
    ensures AddNets(pc, nets, tech, clockPort).Keys == pc.Keys + EndsOf(nets)
  {
    if |nets| > 0 {
      var n := nets[|nets| - 1];
      AddNetsAt(pc, nets[..|nets| - 1], tech, clockPort, name);
      AddSegsAt(AddNets(pc, nets[..|nets| - 1], tech, clockPort), n.wireSegs, CapRate(n, tech, clockPort), tech, name);
    }
  }

  /** A node no segment touches gets no wire capacitance. */
  lemma {:induction false} WireCapUntouched(nets: seq<Net>, name: string, tech: Tech, clockPort: string)
    requires tech.Valid() && name !in EndsOf(nets)
    ensures WireCap(nets, name, tech, clockPort) == 0.0
  {
    if |nets| > 0 {
      WireCapUntouched(nets[..|nets| - 1], name, tech, clockPort);
      SegsCapUntouched(nets[|nets| - 1].wireSegs, name, CapRate(nets[|nets| - 1], tech, clockPort), tech);
    }
  }

  lemma {:induction false} SegsCapUntouched(segs: seq<Segment>, name: string, rate: real, tech: Tech)
    requires tech.Valid() && name !in SegEnds(segs)
    ensures SegsCap(segs, name, rate, tech) == 0.0
  {
    if |segs| > 0 {
      SegsCapUntouched(segs[..|segs| - 1], name, rate, tech);
    }
  }

  /* ---------------- reading a line list ---------------- */

  /** How many capacitor lines the list has for the node. */
  function CapCount(lines: seq<Line>, name: string): nat
  {
    if |lines| == 0 then 0
    else CapCount(lines[..|lines| - 1], name) + (if lines[|lines| - 1].CapLine? && lines[|lines| - 1].node == name then 1 else 0)
  }

  /** The resistor lines of the list, in order. */
  function Resistors(lines: seq<Line>): seq<(string, string, real)>
  {
    if |lines| == 0 then []
    else
      var l := lines[|lines| - 1];
      Resistors(lines[..|lines| - 1]) + (if l.ResLine? then [(l.node1, l.node2, l.res)] else [])
  }

  /** The wire lines of the list, in order. */
  function Wires(lines: seq<Line>): seq<(string, seq<string>)>
  {
    if |lines| == 0 then []
    else
      var l := lines[|lines| - 1];
      Wires(lines[..|lines| - 1]) + (if l.WireLine? then [(l.driver, l.taps)] else [])
  }

  /** A wire line with the resistor lines and the nodes of the capacitor lines
      that follow it up to the next wire line: the RC tree the timer reads for
      that wire. */
  datatype Block = Block(head: (string, seq<string>), res: seq<(string, string, real)>, caps: set<string>)

  /** The last block with more resistors and capacitors. */
  function GrowLast(bs: seq<Block>, res: seq<(string, string, real)>, caps: set<string>): (r: seq<Block>)
    requires |bs| > 0
    ensures |r| == |bs|
  {
    var b := bs[|bs| - 1];
    bs[..|bs| - 1] + [b.(res := b.res + res, caps := b.caps + caps)]
  }

  /** The blocks after one more line: a wire line opens a block, a resistor
      or capacitor line joins the open one, and any other line, or an RC
      line before the first wire, changes nothing. */
  function BlocksAfter(bs: seq<Block>, l: Line): seq<Block>
  {
    if l.WireLine? then bs + [Block((l.driver, l.taps), [], {})]
    else if |bs| == 0 then bs
    else if l.ResLine? then GrowLast(bs, [(l.node1, l.node2, l.res)], {})
    else if l.CapLine? then GrowLast(bs, [], {l.node})
    else bs
  }

  /** The wire blocks of the list, in order. */
  function Blocks(lines: seq<Line>): seq<Block>
  {
    if |lines| == 0 then [] else BlocksAfter(Blocks(lines[..|lines| - 1]), lines[|lines| - 1])
  }

  /** The order of the lines decides the blocks: a resistor written after
      its wire line joins that wire's block, one written before it joins
      none. */
  lemma ResistorJoinsPrecedingWire(driver: string, taps: seq<string>, a: string, b: string, r: real)
    ensures Blocks([WireLine(driver, taps), ResLine(a, b, r)]) == [Block((driver, taps), [(a, b, r)], {})]
    ensures Blocks([ResLine(a, b, r), WireLine(driver, taps)]) == [Block((driver, taps), [], {})]
  {
    var w, x := WireLine(driver, taps), ResLine(a, b, r);
    var none: set<string> := {};
    var opens := [Block((driver, taps), [], none)];
    assert Blocks([w]) == opens by {
      assert [w][..0] == [];
    }
    assert Blocks([w, x]) == GrowLast(opens, [(a, b, r)], none) by {
      assert [w, x][..1] == [w];
    }
    assert GrowLast(opens, [(a, b, r)], none) == [Block((driver, taps), [(a, b, r)], none)] by {
      assert opens[..0] == [] && [] + [(a, b, r)] == [(a, b, r)] && none + none == none;
    }
    assert Blocks([x]) == [] by {
      assert [x][..0] == [];
    }
    assert Blocks([x, w]) == [] + opens by {
      assert [x, w][..1] == [x];
    }
  }

  lemma GrowLastTwice(bs: seq<Block>, r1: seq<(string, string, real)>, c1: set<string>, r2: seq<(string, string, real)>, c2: set<string>)
    requires |bs| > 0
    ensures GrowLast(GrowLast(bs, r1, c1), r2, c2) == GrowLast(bs, r1 + r2, c1 + c2)
  {
    var b := bs[|bs| - 1];
    var once := GrowLast(bs, r1, c1);
    assert once[..|once| - 1] == bs[..|bs| - 1];
    assert once[|once| - 1] == b.(res := b.res + r1, caps := b.caps + c1);
    assert b.res + r1 + r2 == b.res + (r1 + r2);
    assert b.caps + c1 + c2 == b.caps + (c1 + c2);
  }

  lemma GrowLastNothing(bs: seq<Block>)
    requires |bs| > 0
    ensures GrowLast(bs, [], {}) == bs
  {
    var b := bs[|bs| - 1];
    assert b.res + [] == b.res && b.caps + {} == b.caps;
  }

  lemma BlocksAfterAppend(gs: seq<Block>, hs: seq<Block>, l: Line)
    requires |hs| > 0
    ensures BlocksAfter(gs + hs, l) == gs + BlocksAfter(hs, l)
  {
    assert (gs + hs)[..|gs + hs| - 1] == gs + hs[..|hs| - 1];
  }

  lemma {:induction false} BlocksOpened(lines: seq<Line>)
    requires |lines| > 0 && lines[0].WireLine?
    ensures |Blocks(lines)| > 0
  {
    if |lines| > 1 {
      BlocksOpened(lines[..|lines| - 1]);
    }
  }

  /** Lines that start with a wire line add their own blocks after the
      blocks before them. */
  lemma {:induction false} BlocksAppend(a: seq<Line>, b: seq<Line>)
    requires |b| == 0 || b[0].WireLine?
    ensures Blocks(a + b) == Blocks(a) + Blocks(b)
    decreases |b|
  {
    if |b| == 0 {
      assert a + b == a;
    } else {
      var n := |b|;
      assert (a + b)[..|a + b| - 1] == a + b[..n - 1];
      BlocksAppendStep(a, b);
    }
  }

  lemma {:induction false} BlocksAppendStep(a: seq<Line>, b: seq<Line>)
    requires |b| > 0 && b[0].WireLine?
    requires (a + b)[..|a + b| - 1] == a + b[..|b| - 1]
    ensures Blocks(a + b) == Blocks(a) + Blocks(b)
    decreases |b|, 0
  {
    var n := |b|;
    if n == 1 {
      assert b[..0] == [] && a + b[..0] == a;
    } else {
      BlocksAppend(a, b[..n - 1]);
      BlocksOpened(b[..n - 1]);
      BlocksAfterAppend(Blocks(a), Blocks(b[..n - 1]), b[n - 1]);
    }
  }

  /** Lines with no wire, resistor or capacitor line open no block and join
      none. */
  lemma {:induction false} PlainBlocks(front: seq<Line>, b: seq<Line>)
    requires Plain(front)
    ensures Blocks(front + b) == Blocks(b)
    decreases |b|
  {
    if |b| == 0 {
      PlainOpensNone(front);
      assert front + b == front;
    } else {
      assert (front + b)[..|front + b| - 1] == front + b[..|b| - 1];
      PlainBlocks(front, b[..|b| - 1]);
    }
  }

  lemma {:induction false} PlainOpensNone(lines: seq<Line>)
    requires Plain(lines)
    ensures Blocks(lines) == []
  {
    if |lines| > 0 {
      PlainOpensNone(lines[..|lines| - 1]);
    }
  }

  lemma {:induction false} PlainJoinsNone(a: seq<Line>, b: seq<Line>)
    requires Plain(b)
    ensures Blocks(a + b) == Blocks(a)
    decreases |b|
  {
    if |b| == 0 {
      assert a + b == a;
    } else {
      assert (a + b)[..|a + b| - 1] == a + b[..|b| - 1];
      PlainJoinsNone(a, b[..|b| - 1]);
    }
  }

  lemma {:induction false} CountsAppend(a: seq<Line>, b: seq<Line>)
    ensures forall name :: CapCount(a + b, name) == CapCount(a, name) + CapCount(b, name)
    ensures Resistors(a + b) == Resistors(a) + Resistors(b)
    ensures Wires(a + b) == Wires(a) + Wires(b)
    decreases |b|
  {
    if |b| == 0 {
      assert a + b == a;
    } else {
      assert (a + b)[..|a + b| - 1] == a + b[..|b| - 1];
      CountsAppend(a, b[..|b| - 1]);
    }
  }

  /** A list with no capacitor, resistor or wire line. */
  predicate Plain(lines: seq<Line>)
  {
    forall k :: 0 <= k < |lines| ==> !lines[k].CapLine? && !lines[k].ResLine? && !lines[k].WireLine?
  }

  lemma {:induction false} PlainCounts(lines: seq<Line>)
    requires Plain(lines)
    ensures forall name :: CapCount(lines, name) == 0
    ensures Resistors(lines) == [] && Wires(lines) == []
  {
    if |lines| > 0 {
      PlainCounts(lines[..|lines| - 1]);
    }
  }

  /** Appending one line. */
  lemma Snoc(lines: seq<Line>, x: Line)
    ensures forall name :: CapCount(lines + [x], name) == CapCount(lines, name) + (if x.CapLine? && x.node == name then 1 else 0)
    ensures Resistors(lines + [x]) == Resistors(lines) + (if x.ResLine? then [(x.node1, x.node2, x.res)] else [])
    ensures Wires(lines + [x]) == Wires(lines) + (if x.WireLine? then [(x.driver, x.taps)] else [])
    ensures Blocks(lines + [x]) == BlocksAfter(Blocks(lines), x)
  {
    assert (lines + [x])[..|lines|] == lines;
  }

  /** Every capacitor line carries the node's value in `pc`. */
  predicate CapsFrom(lines: seq<Line>, pc: map<string, real>)
  {
    forall k :: 0 <= k < |lines| && lines[k].CapLine? ==> lines[k].cap == Get(pc, lines[k].node)
  }

  /* ---------------- 0. inputs and outputs ---------------- */

  /** The output load of a node: the capacitance of the last primary output
      with that name, 0 if there is none. */
  function PoLoad(pins: seq<Pin>, POs: seq<nat>, name: string): real
    requires IdsInRange(POs, |pins|)
  {
    if |POs| == 0 then 0.0
    else if pins[POs[|POs| - 1]].name == name then pins[POs[|POs| - 1]].cap
    else PoLoad(pins, POs[..|POs| - 1], name)
  }

  /** The output loads as a map from node name: each primary output's
      capacitance, a later output overriding an earlier one of the same name. */
  function PoLoads(pins: seq<Pin>, POs: seq<nat>): map<string, real>
    requires IdsInRange(POs, |pins|)
  {
    if |POs| == 0 then map[]
    else
      var p := pins[POs[|POs| - 1]];
      PoLoads(pins, POs[..|POs| - 1])[p.name := p.cap]
  }

  /** The map holds, for every node, the load of the last output of that
      name, and no load for a node no output names. */
  lemma {:induction false} PoLoadsAt(pins: seq<Pin>, POs: seq<nat>, name: string)
    requires IdsInRange(POs, |pins|)
    ensures Get(PoLoads(pins, POs), name) == PoLoad(pins, POs, name)
  {
    if |POs| > 0 {
      PoLoadsAt(pins, POs[..|POs| - 1], name);
    }
  }

  /** The declarations: one input line per primary input, then one output
      line per primary output, in order. */
  ghost predicate Declarations(lines: seq<Line>, pins: seq<Pin>, PIs: seq<nat>, POs: seq<nat>)
    requires IdsInRange(PIs, |pins|) && IdsInRange(POs, |pins|)
  {
    && |lines| == |PIs| + |POs| && Plain(lines)
    && (forall k :: 0 <= k < |PIs| ==> lines[k] == InputLine(pins[PIs[k]].name))
    && (forall k :: 0 <= k < |POs| ==> lines[|PIs| + k] == OutputLine(pins[POs[k]].name))
  }

  /** Declares the primary inputs, then the primary outputs, and records each
      output's load capacitance. */
  method IoLines(pins: seq<Pin>, PIs: seq<nat>, POs: seq<nat>) returns (lines: seq<Line>, pincap: map<string, real>)
    requires IdsInRange(PIs, |pins|) && IdsInRange(POs, |pins|)
    ensures Declarations(lines, pins, PIs, POs)
    ensures pincap == PoLoads(pins, POs)
  {
    lines := [];
    var k := 0;
    while k < |PIs|
      invariant 0 <= k <= |PIs| && |lines| == k
      invariant forall m :: 0 <= m < k ==> lines[m] == InputLine(pins[PIs[m]].name)
      invariant Plain(lines)
    {
      lines := lines + [InputLine(pins[PIs[k]].name)];
      k := k + 1;
    }
    pincap := map[];
    k := 0;
    while k < |POs|
      invariant 0 <= k <= |POs| && |lines| == |PIs| + k
      invariant forall m :: 0 <= m < |PIs| ==> lines[m] == InputLine(pins[PIs[m]].name)
      invariant forall m :: 0 <= m < k ==> lines[|PIs| + m] == OutputLine(pins[POs[m]].name)
      invariant pincap == PoLoads(pins, POs[..k])
      invariant Plain(lines)
    {
      var p := pins[POs[k]];
      lines := lines + [OutputLine(p.name)];
      pincap := pincap[p.name := p.cap];
      assert POs[..k + 1][..k] == POs[..k];
      k := k + 1;
    }
    assert POs[..k] == POs;
  }

  /* ---------------- 1. instances ---------------- */

  /** The primary inputs other than the clock port, in order. */
  function NonClock(pins: seq<Pin>, PIs: seq<nat>, clockPort: string): (nc: seq<nat>)
    requires IdsInRange(PIs, |pins|)
    ensures |nc| <= |PIs|
    ensures forall k :: 0 <= k < |nc| ==> nc[k] in PIs && nc[k] < |pins| && pins[nc[k]].name != clockPort
  {
    if |PIs| == 0 then []
    else
      var rest := NonClock(pins, PIs[..|PIs| - 1], clockPort);
      if pins[PIs[|PIs| - 1]].name == clockPort then rest else rest + [PIs[|PIs| - 1]]
  }

  /** Exactly the non-clock primary inputs are kept. */
  lemma {:induction false} NonClockMembers(pins: seq<Pin>, PIs: seq<nat>, clockPort: string, id: nat)
    requires IdsInRange(PIs, |pins|)
    ensures id in NonClock(pins, PIs, clockPort) <==> id in PIs && pins[id].name != clockPort
  {
    if |PIs| > 0 {
      NonClockMembers(pins, PIs[..|PIs| - 1], clockPort, id);
      assert PIs == PIs[..|PIs| - 1] + [PIs[|PIs| - 1]];
    }
  }

  /** The connection a library pin of a driver gets: an input pin connects to
      `<pi>_drvin`, an output pin to `<pi>_drvout`, any other pin to nothing. */
  function Hookup(mp: MacroPin, pi: string): Option<(string, string)>
  {
    if mp.direction == "INPUT" then Some((mp.name, pi + "_drvin"))
    else if mp.direction == "OUTPUT" then Some((mp.name, pi + "_drvout"))
    else None
  }

  function DriverConns(mpins: seq<MacroPin>, pi: string): seq<(string, string)>
  {
    if |mpins| == 0 then []
    else
      var rest := DriverConns(mpins[..|mpins| - 1], pi);
      match Hookup(mpins[|mpins| - 1], pi)
      case Some(c) => rest + [c]
      case None => rest
  }

  /** A driver's connections are exactly the hookups of its input and output
      library pins. */
  lemma {:induction false} DriverConnsMembers(mpins: seq<MacroPin>, pi: string, c: (string, string))
    ensures c in DriverConns(mpins, pi) <==> exists k :: 0 <= k < |mpins| && Hookup(mpins[k], pi) == Some(c)
  {
    if |mpins| > 0 {
      var last := |mpins| - 1;
      DriverConnsMembers(mpins[..last], pi, c);
      if c in DriverConns(mpins, pi) && c !in DriverConns(mpins[..last], pi) {
        assert Hookup(mpins[last], pi) == Some(c);
      }
      if exists k :: 0 <= k < |mpins| && Hookup(mpins[k], pi) == Some(c) {
        var k :| 0 <= k < |mpins| && Hookup(mpins[k], pi) == Some(c);
        if k < last {
          assert mpins[..last][k] == mpins[k];
        }
      }
    }
  }

  method DriverConnsOf(mpins: seq<MacroPin>, pi: string) returns (conns: seq<(string, string)>)
    ensures conns == DriverConns(mpins, pi)
  {
    conns := [];
    var j := 0;
    while j < |mpins|
      invariant 0 <= j <= |mpins|
      invariant conns == DriverConns(mpins[..j], pi)
    {
      assert mpins[..j + 1][..j] == mpins[..j];
      if mpins[j].direction == "INPUT" {
        conns := conns + [(mpins[j].name, pi + "_drvin")];
      } else if mpins[j].direction == "OUTPUT" {
        conns := conns + [(mpins[j].name, pi + "_drvout")];
      }
      j := j + 1;
    }
    assert mpins[..j] == mpins;
  }

  /** Every non-clock primary input has a known driver macro. */
  predicate DriversKnown(pins: seq<Pin>, PIs: seq<nat>, macros: seq<Macro>, clockPort: string)
  {
    forall id :: id in PIs && id < |pins| && pins[id].name != clockPort ==> pins[id].driverType < |macros|
  }

  function DriverLine(pins: seq<Pin>, id: nat, macros: seq<Macro>): Line
    requires id < |pins| && pins[id].driverType < |macros|
  {
    var m := macros[pins[id].driverType];
    InstanceLine(m.name, DriverConns(m.pins, pins[id].name))
  }

  /** One driver instance per non-clock primary input, in order. */
  method DriverInstances(pins: seq<Pin>, PIs: seq<nat>, macros: seq<Macro>, clockPort: string) returns (lines: seq<Line>)
    requires IdsInRange(PIs, |pins|) && DriversKnown(pins, PIs, macros, clockPort)
    ensures |lines| == |NonClock(pins, PIs, clockPort)|
    ensures forall k :: 0 <= k < |lines| ==> lines[k] == DriverLine(pins, NonClock(pins, PIs, clockPort)[k], macros)
    ensures Plain(lines)
  {
    lines := [];
    var k := 0;
    while k < |PIs|
      invariant 0 <= k <= |PIs|
      invariant |lines| == |NonClock(pins, PIs[..k], clockPort)|
      invariant forall m :: 0 <= m < |lines| ==> lines[m] == DriverLine(pins, NonClock(pins, PIs[..k], clockPort)[m], macros)
      invariant Plain(lines)
    {
      assert PIs[..k + 1][..k] == PIs[..k];
      var p := pins[PIs[k]];
      if p.name != clockPort {
        var m := macros[p.driverType];
        var conns := DriverConnsOf(m.pins, p.name);
        lines := lines + [InstanceLine(m.name, conns)];
      }
      k := k + 1;
    }
    assert PIs[..k] == PIs;
  }

  /** Every port of a cell names an existing pin. */
  predicate PortsInRange(ports: seq<Port>, numPins: nat)
  {
    forall k :: 0 <= k < |ports| ==> ports[k].pin < numPins
  }

  /** Each cell with ports has a known macro and ports on existing pins. */
  predicate CellsKnown(pins: seq<Pin>, cells: seq<Cell>, macros: seq<Macro>)
  {
    forall k :: 0 <= k < |cells| && |cells[k].ports| > 0 ==>
      cells[k].macroType < |macros| && PortsInRange(cells[k].ports, |pins|)
  }

  /** A cell's connections: each port to its pin's node, where a non-clock
      primary input is reached through its driver's output node. */
  function CellConns(pins: seq<Pin>, ports: seq<Port>, clockPort: string): (cs: seq<(string, string)>)
    requires PortsInRange(ports, |pins|)
    ensures |cs| == |ports|
  {
    seq(|ports|, k requires 0 <= k < |ports| => (ports[k].name, DriverName(pins[ports[k].pin], clockPort)))
  }

  method CellConnsOf(pins: seq<Pin>, ports: seq<Port>, clockPort: string) returns (conns: seq<(string, string)>)
    requires PortsInRange(ports, |pins|)
    ensures conns == CellConns(pins, ports, clockPort)
  {
    conns := [];
    var j := 0;
    while j < |ports|
      invariant 0 <= j <= |ports|
      invariant conns == CellConns(pins, ports[..j], clockPort)
    {
      var p := pins[ports[j].pin];
      if p.pinType == PrimaryInput && p.name != clockPort {
        conns := conns + [(ports[j].name, p.name + "_drvout")];
      } else {
        conns := conns + [(ports[j].name, p.name)];
      }
      j := j + 1;
    }
    assert ports[..j] == ports;
  }

  /** The indices of the cells that have ports, in order. */
  function WithPorts(cells: seq<Cell>): (ids: seq<nat>)
    ensures |ids| <= |cells|
    ensures forall k :: 0 <= k < |ids| ==> ids[k] < |cells| && |cells[ids[k]].ports| > 0
  {
    if |cells| == 0 then []
    else
      var rest := WithPorts(cells[..|cells| - 1]);
      if |cells[|cells| - 1].ports| == 0 then rest else rest + [|cells| - 1]
  }

  /** Exactly the cells with ports are kept. */
  lemma {:induction false} WithPortsMembers(cells: seq<Cell>, i: nat)
    ensures i in WithPorts(cells) <==> i < |cells| && |cells[i].ports| > 0
  {
    if |cells| > 0 {
      WithPortsMembers(cells[..|cells| - 1], i);
    }
  }

  function CellLine(pins: seq<Pin>, c: Cell, macros: seq<Macro>, clockPort: string): Line
    requires |c.ports| > 0 && c.macroType < |macros| && PortsInRange(c.ports, |pins|)
  {
    InstanceLine(macros[c.macroType].name, CellConns(pins, c.ports, clockPort))
  }

  /** One instance per cell that has ports, in order. */
  function CellLines(pins: seq<Pin>, cells: seq<Cell>, macros: seq<Macro>, clockPort: string): (ls: seq<Line>)
    requires CellsKnown(pins, cells, macros)
    ensures |ls| == |WithPorts(cells)| && Plain(ls)
    ensures forall m :: 0 <= m < |ls| ==> ls[m] == CellLine(pins, cells[WithPorts(cells)[m]], macros, clockPort)
  {
    if |cells| == 0 then []
    else
      var c, rest := cells[|cells| - 1], CellLines(pins, cells[..|cells| - 1], macros, clockPort);
      if |c.ports| == 0 then rest
      else
        PlainAppend(rest, [CellLine(pins, c, macros, clockPort)]);
        rest + [CellLine(pins, c, macros, clockPort)]
  }

  method CellInstances(pins: seq<Pin>, cells: seq<Cell>, macros: seq<Macro>, clockPort: string) returns (lines: seq<Line>)
    requires CellsKnown(pins, cells, macros)
    ensures lines == CellLines(pins, cells, macros, clockPort)
  {
    lines := [];
    var k := 0;
    while k < |cells|
      invariant 0 <= k <= |cells|
      invariant lines == CellLines(pins, cells[..k], macros, clockPort)
    {
      assert cells[..k + 1][..k] == cells[..k];
      var c := cells[k];
      if |c.ports| > 0 {
        var conns := CellConnsOf(pins, c.ports, clockPort);
        lines := lines + [InstanceLine(macros[c.macroType].name, conns)];
      }
      k := k + 1;
    }
    assert cells[..k] == cells;
  }

  /* ---------------- 2. wires ---------------- */

  /** Every net with segments has a name shorter than the identifier limit. */
  predicate NetNamesFit(nets: seq<Net>, tech: Tech)
  {
    forall k :: 0 <= k < |nets| && |nets[k].wireSegs| > 0 ==> |nets[k].name| < tech.maxPinNameLength
  }

  lemma AddSegsStep(pc: map<string, real>, segs: seq<Segment>, rate: real, tech: Tech, i: nat)
    requires tech.Valid() && i < |segs|
    ensures AddSegs(pc, segs[..i + 1], rate, tech) == AddSeg(AddSegs(pc, segs[..i], rate, tech), segs[i], HalfCap(segs[i], rate, tech))
  {
    assert segs[..i + 1][..i] == segs[..i];
  }

  /** Adds half of each segment's capacitance to both of its ends, for one
      net; fails on a net with segments whose name is too long. */
  method AccumulateNet(n: Net, pc0: map<string, real>, rate: real, tech: Tech)
    returns (ok: bool, pc: map<string, real>)
    requires tech.Valid()
    ensures ok <==> (|n.wireSegs| > 0 ==> |n.name| < tech.maxPinNameLength)
    ensures ok ==> pc == AddSegs(pc0, n.wireSegs, rate, tech)
  {
    pc := pc0;
    var i := 0;
    while i < |n.wireSegs|
      invariant 0 <= i <= |n.wireSegs|
      invariant pc == AddSegs(pc0, n.wireSegs[..i], rate, tech)
      invariant i > 0 ==> |n.name| < tech.maxPinNameLength
    {
      if |n.name| >= tech.maxPinNameLength {
        ok := false;
        return;
      }
      var s := n.wireSegs[i];
      var half := HalfCap(s, rate, tech);
      ghost var before := pc;
      pc := pc[s.end1 := Get(pc, s.end1) + half];
      pc := pc[s.end2 := Get(pc, s.end2) + half];
      assert pc == AddSeg(before, s, half);
      AddSegsStep(pc0, n.wireSegs, rate, tech, i);
      i := i + 1;
    }
    assert n.wireSegs[..i] == n.wireSegs;
    ok := true;
  }

  /** Adds up the node capacitances over all segments of all nets, starting
      from the output loads; fails (the source's assertion) on a net with
      segments whose name is too long. */
  method AccumulateCaps(nets: seq<Net>, pc0: map<string, real>, tech: Tech, clockPort: string)
    returns (ok: bool, pc: map<string, real>)
    requires tech.Valid()
    ensures ok <==> NetNamesFit(nets, tech)
    ensures ok ==> pc == AddNets(pc0, nets, tech, clockPort)
  {
    pc := pc0;
    var k := 0;
    while k < |nets|
      invariant 0 <= k <= |nets|
      invariant NetNamesFit(nets[..k], tech)
      invariant pc == AddNets(pc0, nets[..k], tech, clockPort)
    {
      var n := nets[k];
      ok, pc := AccumulateNet(n, pc, CapRate(n, tech, clockPort), tech);
      if !ok {
        return;
      }
      assert nets[..k + 1][..k] == nets[..k];
      k := k + 1;
    }
    assert nets[..k] == nets;
    ok := true;
  }

  /** The wire and zero-resistance resistor from each non-clock primary input
      to its driver's input node. */
  function PiWireLines(pins: seq<Pin>, ids: seq<nat>): (lines: seq<Line>)
    requires IdsInRange(ids, |pins|)
    ensures |lines| == 2 * |ids|
    ensures forall k :: 0 <= k < |lines| ==> !lines[k].CapLine?
  {
    if |ids| == 0 then []
    else
      var name := pins[ids[|ids| - 1]].name;
      PiWireLines(pins, ids[..|ids| - 1]) + [WireLine(name, [name + "_drvin"]), ResLine(name, name + "_drvin", 0.0)]
  }

  method PiWires(pins: seq<Pin>, PIs: seq<nat>, clockPort: string) returns (lines: seq<Line>)
    requires IdsInRange(PIs, |pins|)
    ensures lines == PiWireLines(pins, NonClock(pins, PIs, clockPort))
  {
    lines := [];
    var k := 0;
    while k < |PIs|
      invariant 0 <= k <= |PIs|
      invariant lines == PiWireLines(pins, NonClock(pins, PIs[..k], clockPort))
    {
      assert PIs[..k + 1][..k] == PIs[..k];
      var name := pins[PIs[k]].name;
      if name != clockPort {
        lines := lines + [WireLine(name, [name + "_drvin"]), ResLine(name, name + "_drvin", 0.0)];
      }
      k := k + 1;
    }
    assert PIs[..k] == PIs;
  }

  /** The driver hookups carry no capacitor; each brings a wire from the input
      to `<pi>_drvin` and a zero resistor between the two. */
  lemma {:induction false} PiWireCounts(pins: seq<Pin>, ids: seq<nat>)
    requires IdsInRange(ids, |pins|)
    ensures forall name :: CapCount(PiWireLines(pins, ids), name) == 0
    ensures Resistors(PiWireLines(pins, ids)) == PiResistors(pins, ids)
    ensures Wires(PiWireLines(pins, ids)) == PiWireHeads(pins, ids)
  {
    if |ids| > 0 {
      var name := pins[ids[|ids| - 1]].name;
      var rest := PiWireLines(pins, ids[..|ids| - 1]);
      PiWireCounts(pins, ids[..|ids| - 1]);
      Snoc(rest, WireLine(name, [name + "_drvin"]));
      Snoc(rest + [WireLine(name, [name + "_drvin"])], ResLine(name, name + "_drvin", 0.0));
      assert rest + [WireLine(name, [name + "_drvin"]), ResLine(name, name + "_drvin", 0.0)]
        == rest + [WireLine(name, [name + "_drvin"])] + [ResLine(name, name + "_drvin", 0.0)];
    }
  }

  /** The driver hookups make one block per non-clock primary input. */
  lemma {:induction false} PiWireBlocks(pins: seq<Pin>, ids: seq<nat>)
    requires IdsInRange(ids, |pins|)
    ensures Blocks(PiWireLines(pins, ids)) == PiBlocks(pins, ids)
  {
    if |ids| > 0 {
      PiWireBlocks(pins, ids[..|ids| - 1]);
      PiBlockLines(PiWireLines(pins, ids[..|ids| - 1]), pins[ids[|ids| - 1]].name);
    }
  }

  lemma PiBlockLines(rest: seq<Line>, name: string)
    ensures Blocks(rest + [WireLine(name, [name + "_drvin"]), ResLine(name, name + "_drvin", 0.0)])
         == Blocks(rest) + [Block((name, [name + "_drvin"]), [(name, name + "_drvin", 0.0)], {})]
  {
    var w, r := WireLine(name, [name + "_drvin"]), ResLine(name, name + "_drvin", 0.0);
    Snoc(rest, w);
    Snoc(rest + [w], r);
    assert rest + [w, r] == rest + [w] + [r];
    var b := Block((name, [name + "_drvin"]), [], {});
    var bs := Blocks(rest) + [b];
    assert bs[..|bs| - 1] == Blocks(rest) && bs[|bs| - 1] == b;
    assert b.caps + {} == {};
    assert GrowLast(bs, [(name, name + "_drvin", 0.0)], {})
      == Blocks(rest) + [Block((name, [name + "_drvin"]), [] + [(name, name + "_drvin", 0.0)], {})];
    assert [] + [(name, name + "_drvin", 0.0)] == [(name, name + "_drvin", 0.0)];
  }

  /** Each primary input's block: its wire to `<pi>_drvin` and the zero
      resistor between the two, with no capacitor. */
  function PiBlocks(pins: seq<Pin>, ids: seq<nat>): (bs: seq<Block>)
    requires IdsInRange(ids, |pins|)
  {
    if |ids| == 0 then []
    else
      var name := pins[ids[|ids| - 1]].name;
      PiBlocks(pins, ids[..|ids| - 1]) + [Block((name, [name + "_drvin"]), [(name, name + "_drvin", 0.0)], {})]
  }

  function PiResistors(pins: seq<Pin>, ids: seq<nat>): (rs: seq<(string, string, real)>)
    requires IdsInRange(ids, |pins|)
  {
    if |ids| == 0 then []
    else
      var name := pins[ids[|ids| - 1]].name;
      PiResistors(pins, ids[..|ids| - 1]) + [(name, name + "_drvin", 0.0)]
  }

  function PiWireHeads(pins: seq<Pin>, ids: seq<nat>): (ws: seq<(string, seq<string>)>)
    requires IdsInRange(ids, |pins|)
  {
    if |ids| == 0 then []
    else
      var name := pins[ids[|ids| - 1]].name;
      PiWireHeads(pins, ids[..|ids| - 1]) + [(name, [name + "_drvin"])]
  }

  /** A net's size limits: fewer sinks than wire taps, fewer segments than
      internal nodes plus taps. */
  predicate NetFits(n: Net, tech: Tech)
  {
    |n.sinks| < tech.maxWireTaps && |n.wireSegs| < tech.maxInternalNodes + tech.maxWireTaps
  }

  function SinkNames(pins: seq<Pin>, sinks: seq<nat>): (names: seq<string>)
    requires IdsInRange(sinks, |pins|)
    ensures |names| == |sinks|
  {
    seq(|sinks|, k requires 0 <= k < |sinks| => pins[sinks[k]].name)
  }

  /** The wire line of a net: its driving node, then its sinks' names. */
  function WireHead(pins: seq<Pin>, n: Net, clockPort: string): (string, seq<string>)
    requires NetInRange(n, |pins|)
  {
    (DriverName(pins[n.source], clockPort), SinkNames(pins, n.sinks))
  }

  function WireHeads(pins: seq<Pin>, nets: seq<Net>, clockPort: string): (ws: seq<(string, seq<string>)>)
    requires NetsInRange(nets, |pins|)
    ensures |ws| == |nets|
  {
    seq(|nets|, k requires 0 <= k < |nets| => WireHead(pins, nets[k], clockPort))
  }

  /** One resistor per segment: its ends and its length in microns times the
      per-micron resistance. */
  function SegResistors(segs: seq<Segment>, rate: real, tech: Tech): (rs: seq<(string, string, real)>)
    requires tech.Valid()
    ensures |rs| == |segs|
  {
    if |segs| == 0 then []
    else
      var s := segs[|segs| - 1];
      SegResistors(segs[..|segs| - 1], rate, tech) + [(s.end1, s.end2, SegRes(s, rate, tech))]
  }

  function AllSegResistors(nets: seq<Net>, tech: Tech, clockPort: string): seq<(string, string, real)>
    requires tech.Valid()
  {
    if |nets| == 0 then []
    else
      var n := nets[|nets| - 1];
      AllSegResistors(nets[..|nets| - 1], tech, clockPort) + SegResistors(n.wireSegs, ResRate(n, tech, clockPort), tech)
  }

  /** The block of net `k`: its wire line, one resistor per segment, and a
      capacitor for each node of its segments that no earlier net has. */
  function NetBlock(pins: seq<Pin>, nets: seq<Net>, k: nat, tech: Tech, clockPort: string): Block
    requires tech.Valid() && NetsInRange(nets, |pins|) && k < |nets|
  {
    Block(WireHead(pins, nets[k], clockPort), SegResistors(nets[k].wireSegs, ResRate(nets[k], tech, clockPort), tech),
          SegEnds(nets[k].wireSegs) - EndsOf(nets[..k]))
  }

  /** The blocks of the first `n` nets, in order. */
  function NetBlocks(pins: seq<Pin>, nets: seq<Net>, n: nat, tech: Tech, clockPort: string): (bs: seq<Block>)
    requires tech.Valid() && NetsInRange(nets, |pins|) && n <= |nets|
    ensures |bs| == n
  {
    seq(n, k requires 0 <= k < n => NetBlock(pins, nets, k, tech, clockPort))
  }

  lemma WireHeadsStep(pins: seq<Pin>, nets: seq<Net>, k: nat, clockPort: string)
    requires NetsInRange(nets, |pins|) && k < |nets|
    ensures NetsInRange(nets[..k], |pins|) && NetsInRange(nets[..k + 1], |pins|)
    ensures WireHeads(pins, nets[..k + 1], clockPort) == WireHeads(pins, nets[..k], clockPort) + [WireHead(pins, nets[k], clockPort)]
  {
    var a, b := WireHeads(pins, nets[..k + 1], clockPort), WireHeads(pins, nets[..k], clockPort);
    assert forall m :: 0 <= m < k ==> a[m] == b[m];
  }

  /** `more` adds one capacitor line for each node in `added` and none for
      any other node. */
  ghost predicate CapsAdded(lines: seq<Line>, more: seq<Line>, added: set<string>)
  {
    forall name :: CapCount(more, name) == CapCount(lines, name) + (if name in added then 1 else 0)
  }

  /** A capacitor line for a node unless its capacitor is already written. */
  method EmitCap(lines: seq<Line>, written: set<string>, node: string, pc: map<string, real>)
    returns (lines': seq<Line>, written': set<string>)
    ensures written' == written + {node}
    ensures CapsAdded(lines, lines', written' - written)
    ensures Resistors(lines') == Resistors(lines) && Wires(lines') == Wires(lines)
    ensures |Blocks(lines)| > 0 ==> Blocks(lines') == GrowLast(Blocks(lines), [], written' - written)
    ensures lines <= lines'
    ensures CapsFrom(lines, pc) ==> CapsFrom(lines', pc)
  {
    lines', written' := lines, written;
    if node !in written {
      Snoc(lines, CapLine(node, Get(pc, node)));
      lines' := lines + [CapLine(node, Get(pc, node))];
      written' := written + {node};
      assert written' - written == {node};
    } else if |Blocks(lines)| > 0 {
      assert written' - written == {};
      GrowLastNothing(Blocks(lines));
    }
  }

  /** The lines of one segment: its first end's capacitor unless already
      written, its resistor, and its second end's capacitor unless already
      written. */
  method EmitSegment(lines: seq<Line>, written: set<string>, s: Segment, pc: map<string, real>, rate: real, tech: Tech)
    returns (lines': seq<Line>, written': set<string>)
    requires tech.Valid()
    ensures written' == written + {s.end1, s.end2}
    ensures CapsAdded(lines, lines', written' - written)
    ensures Resistors(lines') == Resistors(lines) + [(s.end1, s.end2, SegRes(s, rate, tech))]
    ensures Wires(lines') == Wires(lines)
    ensures |Blocks(lines)| > 0 ==>
      Blocks(lines') == GrowLast(Blocks(lines), [(s.end1, s.end2, SegRes(s, rate, tech))], written' - written)
    ensures lines <= lines'
    ensures CapsFrom(lines, pc) ==> CapsFrom(lines', pc)
  {
    var l1, w1 := EmitCap(lines, written, s.end1, pc);
    var res := ResLine(s.end1, s.end2, SegRes(s, rate, tech));
    Snoc(l1, res);
    var l2 := l1 + [res];
    assert CapsAdded(l1, l2, {});
    lines', written' := EmitCap(l2, w1, s.end2, pc);
    CapsAddedTrans(lines, l1, l2, w1 - written, {});
    assert w1 - written + {} == w1 - written;
    CapsAddedTrans(lines, l2, lines', w1 - written, written' - w1);
    assert written' - written == (w1 - written) + (written' - w1);
    if |Blocks(lines)| > 0 {
      var r := (s.end1, s.end2, SegRes(s, rate, tech));
      GrowLastTwice(Blocks(lines), [], w1 - written, [r], {});
      GrowLastTwice(Blocks(lines), [] + [r], w1 - written + {}, [], written' - w1);
      assert [] + [r] + [] == [r];
    }
  }

  /** The lines of one net: its wire line, then the lines of each segment.
      `written` holds the nodes whose capacitor is already in the netlist.
      Fails (the source's assertions) if the net exceeds the size limits. */
  method NetWire(pins: seq<Pin>, n: Net, pc: map<string, real>, written: set<string>, tech: Tech, clockPort: string)
    returns (ok: bool, lines: seq<Line>, written': set<string>)
    requires tech.Valid() && NetInRange(n, |pins|)
    ensures ok <==> NetFits(n, tech)
    ensures ok ==> written' == written + SegEnds(n.wireSegs)
    ensures ok ==> CapsAdded([], lines, written' - written)
    ensures ok ==> Resistors(lines) == SegResistors(n.wireSegs, ResRate(n, tech, clockPort), tech)
    ensures ok ==> Wires(lines) == [WireHead(pins, n, clockPort)]
    ensures ok ==> |lines| > 0 && lines[0] == WireLine(WireHead(pins, n, clockPort).0, WireHead(pins, n, clockPort).1)
    ensures ok ==> Blocks(lines) == [Block(WireHead(pins, n, clockPort), SegResistors(n.wireSegs, ResRate(n, tech, clockPort), tech), written' - written)]
    ensures ok ==> CapsFrom(lines, pc)
  {
    written' := written;
    var head := WireHead(pins, n, clockPort);
    lines := [WireLine(head.0, head.1)];
    if |n.sinks| >= tech.maxWireTaps || |n.wireSegs| >= tech.maxInternalNodes + tech.maxWireTaps {
      return false, lines, written';
    }
    Snoc([], WireLine(head.0, head.1));
    assert [] + [WireLine(head.0, head.1)] == lines;
    var rate := ResRate(n, tech, clockPort);
    var segs := n.wireSegs;
    var i := 0;
    while i < |segs|
      invariant 0 <= i <= |segs|
      invariant written' == written + SegEnds(segs[..i])
      invariant CapsAdded([], lines, written' - written)
      invariant Resistors(lines) == SegResistors(segs[..i], rate, tech)
      invariant Wires(lines) == [head]
      invariant |lines| > 0 && lines[0] == WireLine(head.0, head.1)
      invariant Blocks(lines) == [Block(head, SegResistors(segs[..i], rate, tech), written' - written)]
      invariant CapsFrom(lines, pc)
    {
      ghost var before, writtenBefore := lines, written';
      lines, written' := EmitSegment(lines, written', segs[i], pc, rate, tech);
      assert lines[0] == before[0];
      CapsAddedTrans([], before, lines, writtenBefore - written, written' - writtenBefore);
      assert written' - written == (writtenBefore - written) + (written' - writtenBefore);
      assert segs[..i + 1][..i] == segs[..i] && segs[..i + 1][i] == segs[i];
      assert SegResistors(segs[..i + 1], rate, tech)
        == SegResistors(segs[..i], rate, tech) + [(segs[i].end1, segs[i].end2, SegRes(segs[i], rate, tech))];
      i := i + 1;
    }
    assert segs[..i] == segs;
    ok := true;
  }

  lemma CapsAddedTrans(a: seq<Line>, b: seq<Line>, c: seq<Line>, x: set<string>, y: set<string>)
    requires CapsAdded(a, b, x) && CapsAdded(b, c, y) && x !! y
    ensures CapsAdded(a, c, x + y)
  {
  }

  /** The wire lines of all nets, each node's capacitor written once for the
      whole netlist. */
  method NetWires(pins: seq<Pin>, nets: seq<Net>, pc: map<string, real>, tech: Tech, clockPort: string)
    returns (ok: bool, lines: seq<Line>)
    requires tech.Valid() && NetsInRange(nets, |pins|)
    ensures ok <==> forall k :: 0 <= k < |nets| ==> NetFits(nets[k], tech)
    ensures ok ==> CapsAdded([], lines, EndsOf(nets))
    ensures ok ==> Resistors(lines) == AllSegResistors(nets, tech, clockPort)
    ensures ok ==> Wires(lines) == WireHeads(pins, nets, clockPort)
    ensures ok ==> Blocks(lines) == NetBlocks(pins, nets, |nets|, tech, clockPort)
    ensures ok ==> |lines| == 0 || lines[0].WireLine?
    ensures ok ==> CapsFrom(lines, pc)
  {
    lines := [];
    var written: set<string> := {};
    var k := 0;
    while k < |nets|
      invariant 0 <= k <= |nets|
      invariant forall m :: 0 <= m < k ==> NetFits(nets[m], tech)
      invariant written == EndsOf(nets[..k])
      invariant CapsAdded([], lines, written)
      invariant Resistors(lines) == AllSegResistors(nets[..k], tech, clockPort)
      invariant Wires(lines) == WireHeads(pins, nets[..k], clockPort)
      invariant Blocks(lines) == NetBlocks(pins, nets, k, tech, clockPort)
      invariant |lines| == 0 || lines[0].WireLine?
      invariant CapsFrom(lines, pc)
    {
      var more, written';
      ok, more, written' := NetWire(pins, nets[k], pc, written, tech, clockPort);
      if !ok {
        return;
      }
      NetBlocksStep(pins, nets, k, tech, clockPort, lines, more, written, written');
      NetWiresStep(pins, nets, k, pc, tech, clockPort, lines, more, written, written');
      lines := lines + more;
      written := written';
      k := k + 1;
    }
    assert nets[..k] == nets;
    ok := true;
  }

  /** Appending the lines of net `k` keeps the loop's account of the nets
      before it. */
  lemma NetWiresStep(pins: seq<Pin>, nets: seq<Net>, k: nat, pc: map<string, real>, tech: Tech, clockPort: string,
                     lines: seq<Line>, more: seq<Line>, written: set<string>, written': set<string>)
    requires tech.Valid() && NetsInRange(nets, |pins|) && k < |nets|
    requires written == EndsOf(nets[..k]) && CapsAdded([], lines, written)
    requires Resistors(lines) == AllSegResistors(nets[..k], tech, clockPort)
    requires Wires(lines) == WireHeads(pins, nets[..k], clockPort)
    requires CapsFrom(lines, pc)
    requires written' == written + SegEnds(nets[k].wireSegs) && CapsAdded([], more, written' - written)
    requires Resistors(more) == SegResistors(nets[k].wireSegs, ResRate(nets[k], tech, clockPort), tech)
    requires Wires(more) == [WireHead(pins, nets[k], clockPort)]
    requires CapsFrom(more, pc)
    ensures written' == EndsOf(nets[..k + 1]) && CapsAdded([], lines + more, written')
    ensures Resistors(lines + more) == AllSegResistors(nets[..k + 1], tech, clockPort)
    ensures Wires(lines + more) == WireHeads(pins, nets[..k + 1], clockPort)
    ensures CapsFrom(lines + more, pc)
  {
    JoinNet(lines, more, written, written');
    WireHeadsStep(pins, nets, k, clockPort);
    assert nets[..k + 1][..k] == nets[..k];
  }

  /** Appending the lines of net `k` adds its block after those of the nets
      before it. */
  lemma NetBlocksStep(pins: seq<Pin>, nets: seq<Net>, k: nat, tech: Tech, clockPort: string,
                      lines: seq<Line>, more: seq<Line>, written: set<string>, written': set<string>)
    requires tech.Valid() && NetsInRange(nets, |pins|) && k < |nets|
    requires written == EndsOf(nets[..k]) && written' == written + SegEnds(nets[k].wireSegs)
    requires Blocks(lines) == NetBlocks(pins, nets, k, tech, clockPort) && (|lines| == 0 || lines[0].WireLine?)
    requires |more| > 0 && more[0].WireLine?
    requires Blocks(more) == [Block(WireHead(pins, nets[k], clockPort), SegResistors(nets[k].wireSegs, ResRate(nets[k], tech, clockPort), tech), written' - written)]
    ensures Blocks(lines + more) == NetBlocks(pins, nets, k + 1, tech, clockPort) && (lines + more)[0].WireLine?
  {
    BlocksAppend(lines, more);
    assert written' - written == SegEnds(nets[k].wireSegs) - EndsOf(nets[..k]);
    assert NetBlocks(pins, nets, k + 1, tech, clockPort) == NetBlocks(pins, nets, k, tech, clockPort) + [NetBlock(pins, nets, k, tech, clockPort)];
  }

  lemma JoinNet(lines: seq<Line>, more: seq<Line>, written: set<string>, written': set<string>)
    requires written <= written'
    requires CapsAdded([], lines, written) && CapsAdded([], more, written' - written)
    ensures CapsAdded([], lines + more, written')
    ensures Resistors(lines + more) == Resistors(lines) + Resistors(more)
    ensures Wires(lines + more) == Wires(lines) + Wires(more)
    ensures forall pc :: CapsFrom(lines, pc) && CapsFrom(more, pc) ==> CapsFrom(lines + more, pc)
  {
    CountsAppend(lines, more);
    forall pc | CapsFrom(lines, pc) && CapsFrom(more, pc)
      ensures CapsFrom(lines + more, pc)
    {
      CapsFromAppend(lines, more, pc);
    }
  }

  lemma CapsFromAppend(a: seq<Line>, b: seq<Line>, pc: map<string, real>)
    requires CapsFrom(a, pc) && CapsFrom(b, pc)
    ensures CapsFrom(a + b, pc)
  {
    forall k | 0 <= k < |a + b| && (a + b)[k].CapLine?
      ensures (a + b)[k].cap == Get(pc, (a + b)[k].node)
    {
      if k >= |a| {
        assert (a + b)[k] == b[k - |a|];
      }
    }
  }

  /* ---------------- 3, 4. clock and constraints ---------------- */

  /** The clock period, then arrival time and slew at each primary input, then
      the early and late required times at each primary output. */
  method ConstraintLines(pins: seq<Pin>, PIs: seq<nat>, POs: seq<nat>, clockPort: string, clockPeriod: real)
    returns (lines: seq<Line>)
    requires IdsInRange(PIs, |pins|) && IdsInRange(POs, |pins|)
    ensures |lines| == 1 + 2 * |PIs| + 2 * |POs|
    ensures lines[0] == ClockLine(clockPort, clockPeriod)
    ensures forall k :: 0 <= k < |PIs| ==>
      var p := pins[PIs[k]];
      lines[1 + 2 * k] == AtLine(p.name, p.delay) && lines[2 + 2 * k] == SlewLine(p.name, p.fTran, p.rTran)
    ensures forall k :: 0 <= k < |POs| ==>
      var p := pins[POs[k]];
      lines[1 + 2 * |PIs| + 2 * k] == RatLine(p.name, true, 0.0)
      && lines[2 + 2 * |PIs| + 2 * k] == RatLine(p.name, false, clockPeriod - p.delay)
    ensures Plain(lines)
  {
    lines := [ClockLine(clockPort, clockPeriod)];
    var k := 0;
    while k < |PIs|
      invariant 0 <= k <= |PIs| && |lines| == 1 + 2 * k
      invariant lines[0] == ClockLine(clockPort, clockPeriod)
      invariant forall m :: 0 <= m < k ==>
        var p := pins[PIs[m]];
        lines[1 + 2 * m] == AtLine(p.name, p.delay) && lines[2 + 2 * m] == SlewLine(p.name, p.fTran, p.rTran)
      invariant Plain(lines)
    {
      var p := pins[PIs[k]];
      lines := lines + [AtLine(p.name, p.delay), SlewLine(p.name, p.fTran, p.rTran)];
      k := k + 1;
    }
    k := 0;
    while k < |POs|
      invariant 0 <= k <= |POs| && |lines| == 1 + 2 * |PIs| + 2 * k
      invariant lines[0] == ClockLine(clockPort, clockPeriod)
      invariant forall m :: 0 <= m < |PIs| ==>
        var p := pins[PIs[m]];
        lines[1 + 2 * m] == AtLine(p.name, p.delay) && lines[2 + 2 * m] == SlewLine(p.name, p.fTran, p.rTran)
      invariant forall m :: 0 <= m < k ==>
        var p := pins[POs[m]];
        lines[1 + 2 * |PIs| + 2 * m] == RatLine(p.name, true, 0.0)
        && lines[2 + 2 * |PIs| + 2 * m] == RatLine(p.name, false, clockPeriod - p.delay)
      invariant Plain(lines)
    {
      var p := pins[POs[k]];
      lines := lines + [RatLine(p.name, true, 0.0), RatLine(p.name, false, clockPeriod - p.delay)];
      k := k + 1;
    }
  }

  /* ---------------- the whole netlist ---------------- */

  lemma PlainAppend(a: seq<Line>, b: seq<Line>)
    requires Plain(a) && Plain(b)
    ensures Plain(a + b)
  {
    forall k | 0 <= k < |a + b|
      ensures !(a + b)[k].CapLine? && !(a + b)[k].ResLine? && !(a + b)[k].WireLine?
    {
      if k >= |a| {
        assert (a + b)[k] == b[k - |a|];
      }
    }
  }

  /** How the wire section and the lines around it add up. */
  lemma Assemble(front: seq<Line>, wires: seq<Line>, cons: seq<Line>, pc: map<string, real>)
    requires Plain(front) && Plain(cons) && CapsFrom(wires, pc)
    ensures forall name :: CapCount(front + wires + cons, name) == CapCount(wires, name)
    ensures Resistors(front + wires + cons) == Resistors(wires)
    ensures Wires(front + wires + cons) == Wires(wires)
    ensures Blocks(front + wires + cons) == Blocks(wires)
    ensures CapsFrom(front + wires + cons, pc)
  {
    PlainBlocks(front, wires);
    PlainJoinsNone(front + wires, cons);
    PlainCounts(front);
    PlainCounts(cons);
    CountsAppend(front, wires);
    CountsAppend(front + wires, cons);
    assert [] + Resistors(wires) == Resistors(wires) && [] + Wires(wires) == Wires(wires);
    assert Resistors(wires) + [] == Resistors(wires) && Wires(wires) + [] == Wires(wires);
    CapsFromAppend(front, wires, pc);
    CapsFromAppend(front + wires, cons, pc);
  }

  /** What the wire section holds: exactly one capacitor for each node a
      segment touches, each carrying `pc`'s value; the input drivers' and the
      segments' resistors, in order; the input drivers' and the nets' wires,
      in order; and each wire followed by its own block of resistors and
      capacitors. */
  ghost predicate WiresOf(wires: seq<Line>, pc: map<string, real>, pins: seq<Pin>, PIs: seq<nat>, nets: seq<Net>, tech: Tech, clockPort: string)
    requires tech.Valid() && IdsInRange(PIs, |pins|) && NetsInRange(nets, |pins|)
  {
    && (forall name :: CapCount(wires, name) == (if name in EndsOf(nets) then 1 else 0))
    && Resistors(wires) == PiResistors(pins, NonClock(pins, PIs, clockPort)) + AllSegResistors(nets, tech, clockPort)
    && Wires(wires) == PiWireHeads(pins, NonClock(pins, PIs, clockPort)) + WireHeads(pins, nets, clockPort)
    && Blocks(wires) == PiBlocks(pins, NonClock(pins, PIs, clockPort)) + NetBlocks(pins, nets, |nets|, tech, clockPort)
    && CapsFrom(wires, pc)
  }

  /** The wire section: the primary inputs' driver wires, then every net's
      wire with its capacitors and resistors, each capacitor carrying the
      accumulated value; fails where the accumulation or a net's size check
      does. */
  method WireSection(pins: seq<Pin>, nets: seq<Net>, PIs: seq<nat>, pincap: map<string, real>, tech: Tech, clockPort: string)
    returns (ok: bool, pc: map<string, real>, wires: seq<Line>)
    requires tech.Valid() && IdsInRange(PIs, |pins|) && NetsInRange(nets, |pins|)
    ensures ok <==> NetNamesFit(nets, tech) && forall k :: 0 <= k < |nets| ==> NetFits(nets[k], tech)
    ensures ok ==> pc == AddNets(pincap, nets, tech, clockPort) && WiresOf(wires, pc, pins, PIs, nets, tech, clockPort)
  {
    wires := [];
    ok, pc := AccumulateCaps(nets, pincap, tech, clockPort);
    if !ok {
      return;
    }
    var pw := PiWires(pins, PIs, clockPort);
    var nw;
    ok, nw := NetWires(pins, nets, pc, tech, clockPort);
    if !ok {
      return;
    }
    PiWireCounts(pins, NonClock(pins, PIs, clockPort));
    PiWireBlocks(pins, NonClock(pins, PIs, clockPort));
    BlocksAppend(pw, nw);
    CountsAppend(pw, nw);
    CapsFromAppend(pw, nw, pc);
    wires := pw + nw;
  }

  /** A net list whose capacitor lines all carry `pc`'s value, where `pc` is
      the output loads plus the wire capacitance of every touching segment. */
  lemma CapsAreLoads(lines: seq<Line>, pins: seq<Pin>, POs: seq<nat>, nets: seq<Net>, tech: Tech, clockPort: string)
    requires tech.Valid() && IdsInRange(POs, |pins|)
    requires CapsFrom(lines, AddNets(PoLoads(pins, POs), nets, tech, clockPort))
    ensures forall k {:trigger lines[k].cap} :: 0 <= k < |lines| && lines[k].CapLine? ==>
      lines[k].cap == PoLoad(pins, POs, lines[k].node) + WireCap(nets, lines[k].node, tech, clockPort)
  {
    forall k | 0 <= k < |lines| && lines[k].CapLine?
      ensures lines[k].cap == PoLoad(pins, POs, lines[k].node) + WireCap(nets, lines[k].node, tech, clockPort)
    {
      AddNetsAt(PoLoads(pins, POs), nets, tech, clockPort, lines[k].node);
      PoLoadsAt(pins, POs, lines[k].node);
    }
  }

  /** What the netlist holds: the primary inputs' and outputs' declarations
      first; exactly one capacitor for each node a segment touches, carrying
      the node's output load plus the half-pi wire capacitance of every
      segment touching it; the input drivers' and the segments' resistors, in
      order; the input drivers' and the nets' wires, in order; and after each
      wire, up to the next, exactly the resistors and capacitors of its own
      input driver or net (`PiBlocks`, then `NetBlocks`). */
  ghost predicate IsNetlist(lines: seq<Line>, pins: seq<Pin>, PIs: seq<nat>, POs: seq<nat>, nets: seq<Net>, tech: Tech, clockPort: string)
    requires tech.Valid() && IdsInRange(PIs, |pins|) && IdsInRange(POs, |pins|) && NetsInRange(nets, |pins|)
  {
    && |lines| >= |PIs| + |POs|
    && (forall k :: 0 <= k < |PIs| ==> lines[k] == InputLine(pins[PIs[k]].name))
    && (forall k :: 0 <= k < |POs| ==> lines[|PIs| + k] == OutputLine(pins[POs[k]].name))
    && (forall name :: CapCount(lines, name) == (if name in EndsOf(nets) then 1 else 0))
    && (forall k {:trigger lines[k].cap} :: 0 <= k < |lines| && lines[k].CapLine? ==>
          lines[k].cap == PoLoad(pins, POs, lines[k].node) + WireCap(nets, lines[k].node, tech, clockPort))
    && Resistors(lines) == PiResistors(pins, NonClock(pins, PIs, clockPort)) + AllSegResistors(nets, tech, clockPort)
    && Wires(lines) == PiWireHeads(pins, NonClock(pins, PIs, clockPort)) + WireHeads(pins, nets, clockPort)
    && Blocks(lines) == PiBlocks(pins, NonClock(pins, PIs, clockPort)) + NetBlocks(pins, nets, |nets|, tech, clockPort)
  }

  /** The declarations, the instances, the wire section and the timing
      constraints together make a netlist. */
  lemma Assembled(io: seq<Line>, drivers: seq<Line>, insts: seq<Line>, wires: seq<Line>, cons: seq<Line>, pins: seq<Pin>, PIs: seq<nat>, POs: seq<nat>,
                  pc: map<string, real>, nets: seq<Net>, tech: Tech, clockPort: string)
    requires tech.Valid() && IdsInRange(PIs, |pins|) && IdsInRange(POs, |pins|) && NetsInRange(nets, |pins|)
    requires Declarations(io, pins, PIs, POs) && Plain(drivers) && Plain(insts) && Plain(cons)
    requires pc == AddNets(PoLoads(pins, POs), nets, tech, clockPort) && WiresOf(wires, pc, pins, PIs, nets, tech, clockPort)
    ensures IsNetlist(io + drivers + insts + wires + cons, pins, PIs, POs, nets, tech, clockPort)
  {
    var all := io + drivers + insts + wires + cons;
    assert && (forall name :: CapCount(all, name) == CapCount(wires, name))
           && Resistors(all) == Resistors(wires) && Wires(all) == Wires(wires)
           && Blocks(all) == Blocks(wires) && CapsFrom(all, pc) by {
      PlainAppend(io, drivers);
      PlainAppend(io + drivers, insts);
      Assemble(io + drivers + insts, wires, cons, pc);
    }
    assert forall k {:trigger all[k].cap} :: 0 <= k < |all| && all[k].CapLine? ==>
      all[k].cap == PoLoad(pins, POs, all[k].node) + WireCap(nets, all[k].node, tech, clockPort) by {
      CapsAreLoads(all, pins, POs, nets, tech, clockPort);
    }
    assert all[..|io|] == io;
  }

  /** The whole netlist, or None when one of the source's assertions fails (a
      net name too long for the timer, too many sinks or too many segments). */
  method BuildNetlist(pins: seq<Pin>, cells: seq<Cell>, nets: seq<Net>, macros: seq<Macro>, PIs: seq<nat>, POs: seq<nat>,
                      tech: Tech, clockPort: string, clockPeriod: real)
    returns (r: Option<seq<Line>>)
    requires tech.Valid() && IdsInRange(PIs, |pins|) && IdsInRange(POs, |pins|) && NetsInRange(nets, |pins|)
    requires DriversKnown(pins, PIs, macros, clockPort) && CellsKnown(pins, cells, macros)
    ensures r.None? <==> !(NetNamesFit(nets, tech) && forall k :: 0 <= k < |nets| ==> NetFits(nets[k], tech))
    ensures r.Some? ==> IsNetlist(r.value, pins, PIs, POs, nets, tech, clockPort)
  {
    var io, pincap := IoLines(pins, PIs, POs);
    var drivers := DriverInstances(pins, PIs, macros, clockPort);
    var insts := CellInstances(pins, cells, macros, clockPort);
    var ok, pc, wires := WireSection(pins, nets, PIs, pincap, tech, clockPort);
    if !ok {
      return None;
    }
    var cons := ConstraintLines(pins, PIs, POs, clockPort, clockPeriod);
    var all := io + drivers + insts + wires + cons;
    Assembled(io, drivers, insts, wires, cons, pins, PIs, POs, pc, nets, tech, clockPort);
    r := Some(all);
  }
}
