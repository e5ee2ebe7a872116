/** The circuit's entities as values: pins, cells, nets, rows, macros, wire
    segments, and the technology constants the evaluator is compiled with. */
module Model {

  datatype Option<T> = None | Some(value: T)

  /** The role of a pin: a primary input, a primary output, or any other pin. */
  datatype PinType = PrimaryInput | PrimaryOutput | Internal

  /** A pin. `owner` is None where the source stores the largest unsigned value
      as its "no owner" marker. */
  datatype Pin = Pin(
    name: string,
    pinType: PinType,
    x: real,
    y: real,
    xOffset: real,
    yOffset: real,
    owner: Option<nat>,
    isFixed: bool,
    cap: real,
    delay: real,
    rTran: real,
    fTran: real,
    driverType: nat,
    isFlopInput: bool,
    earlySlk: real,
    lateSlk: real)

  /** One entry of a cell's port map, in the order the map iterates (by port name). */
  datatype Port = Port(name: string, pin: nat)

  datatype Cell = Cell(
    macroType: nat,
    x: real,
    y: real,
    initX: real,
    initY: real,
    width: real,
    height: real,
    isFixed: bool,
    ports: seq<Port>)

  /** A library pin of a macro; `direction` is the library's text ("INPUT", "OUTPUT", ...). */
  datatype MacroPin = MacroPin(name: string, direction: string)

  /** A library cell. `pins` is in the order the macro's pin map iterates,
      by pin name. */
  datatype Macro = Macro(name: string, pins: seq<MacroPin>)

  /** A wire segment: two node names and a length in database units. */
  datatype Segment = Segment(end1: string, end2: string, len: real)

  datatype Net = Net(name: string, source: nat, sinks: seq<nat>, wireSegs: seq<Segment>)

  datatype Row = Row(origX: real, origY: real, numSites: nat, stepX: real)

  /** The constants the evaluator is built with: database units per micron,
      per-micron wire resistance and capacitance (local and global layers),
      the slicing length, identifier and netlist size limits, the density
      thresholds and the ABU weights. */
  datatype Tech = Tech(
    dist2Microns: nat,
    localResPerMicron: real,
    localCapPerMicron: real,
    globalResPerMicron: real,
    globalCapPerMicron: real,
    maxWireSegmentInMicron: real,
    maxPinNameLength: nat,
    maxWireTaps: nat,
    maxInternalNodes: nat,
    binAreaThreshold: real,
    freeSpaceThreshold: real,
    abu2Wgt: nat,
    abu5Wgt: nat,
    abu10Wgt: nat,
    abu20Wgt: nat)
  {
    predicate Valid() {
      && dist2Microns > 0
      && localResPerMicron > 0.0 && localCapPerMicron > 0.0
      && globalResPerMicron > 0.0 && globalCapPerMicron > 0.0
      && maxWireSegmentInMicron * (dist2Microns as real) >= 1.0
      && maxPinNameLength > 0 && maxWireTaps > 0 && maxInternalNodes > 0
      && binAreaThreshold >= 0.0 && freeSpaceThreshold >= 0.0
      && abu2Wgt > 0 && abu5Wgt > 0 && abu10Wgt > 0 && abu20Wgt > 0
    }
  }

  function Abs(v: real): (r: real)
    ensures r >= 0.0 && (r == v || r == -v)
  {
    if v < 0.0 then -v else v
  }

  function Max(a: real, b: real): (r: real)
    ensures r >= a && r >= b && (r == a || r == b)
  {
    if a < b then b else a
  }

  function Min(a: real, b: real): (r: real)
    ensures r <= a && r <= b && (r == a || r == b)
  {
    if a < b then a else b
  }

  /** Rectilinear distance between two points. */
  function Manhattan(x1: real, y1: real, x2: real, y2: real): (d: real)
    ensures d >= 0.0
    ensures d == 0.0 <==> x1 == x2 && y1 == y2
    ensures d >= Abs(x1 - x2) && d >= Abs(y1 - y2)
  {
    Abs(x1 - x2) + Abs(y1 - y2)
  }

  /** The conversion `(unsigned)max(v, 0.0)`: negative values clamp to zero and
      the fraction is truncated. */
  function Clamp(v: real): (r: nat)
    ensures v <= 0.0 ==> r == 0
    ensures v > 0.0 ==> r as real <= v < r as real + 1.0
  {
    if v <= 0.0 then 0 else v.Floor
  }

  /** The least integer not below `v`. */
  function Ceil(v: real): (c: int)
    ensures c as real >= v && (c as real) - 1.0 < v
  {
    if v.Floor as real == v then v.Floor else v.Floor + 1
  }

  function DigitChar(d: nat): (c: char)
    requires d < 10
    ensures '0' <= c <= '9'
  {
    ['0', '1', '2', '3', '4', '5', '6', '7', '8', '9'][d]
  }

  /** Decimal text of a natural number, as `to_string` writes it. */
  function NatToString(n: nat): (s: string)
    ensures 1 <= |s|
    ensures forall i :: 0 <= i < |s| ==> '0' <= s[i] <= '9'
    ensures n < 10 <==> |s| == 1
  {
    if n < 10 then [DigitChar(n)] else NatToString(n / 10) + [DigitChar(n % 10)]
  }

  lemma DigitCharInjective(a: nat, b: nat)
    requires a < 10 && b < 10
    ensures DigitChar(a) == DigitChar(b) ==> a == b
  {
  }

  /** Different numbers have different decimal texts. */
  lemma {:induction false} NatToStringInjective(a: nat, b: nat)
    ensures NatToString(a) == NatToString(b) ==> a == b
    decreases a
  {
    if NatToString(a) == NatToString(b) {
      if a < 10 || b < 10 {
        DigitCharInjective(a, b);
      } else {
        var sa, sb := NatToString(a), NatToString(b);
        assert sa[..|sa| - 1] == NatToString(a / 10);
        assert sb[..|sb| - 1] == NatToString(b / 10);
        NatToStringInjective(a / 10, b / 10);
        DigitCharInjective(a % 10, b % 10);
      }
    }
  }

  /** The node name that stands for a pin where it drives a wire: a primary
      input other than the clock port is driven through its driver's output
      node `<name>_drvout`. */
  function DriverName(p: Pin, clockPort: string): (s: string)
    ensures p.name <= s
    ensures s != p.name <==> p.pinType == PrimaryInput && p.name != clockPort
  {
    if p.pinType == PrimaryInput && p.name != clockPort then p.name + "_drvout" else p.name
  }

  /** The pins of a net, source first. */
  function NetPins(n: Net): (ps: seq<nat>)
    ensures |ps| == |n.sinks| + 1 && ps[0] == n.source && ps[1..] == n.sinks
    ensures forall k :: 0 < k < |ps| ==> ps[k] == n.sinks[k - 1]
  {
    [n.source] + n.sinks
  }

  predicate IdsInRange(ids: seq<nat>, numPins: nat) {
    forall k :: 0 <= k < |ids| ==> ids[k] < numPins
  }

  predicate NetInRange(n: Net, numPins: nat) {
    n.source < numPins && IdsInRange(n.sinks, numPins)
  }

  predicate NetsInRange(nets: seq<Net>, numPins: nat) {
    forall k :: 0 <= k < |nets| ==> NetInRange(nets[k], numPins)
  }

  /** A movable pin with an owner names an existing cell. */
  predicate OwnerInRange(p: Pin, numCells: nat) {
    !p.isFixed && p.owner.Some? ==> p.owner.value < numCells
  }

  /** Sum of the segment lengths. */
  function TotalLength(segs: seq<Segment>): real
  {
    if |segs| == 0 then 0.0 else TotalLength(segs[..|segs| - 1]) + segs[|segs| - 1].len
  }

  lemma {:induction false} TotalLengthAppend(a: seq<Segment>, b: seq<Segment>)
    ensures TotalLength(a + b) == TotalLength(a) + TotalLength(b)
    decreases |b|
  {
    if |b| == 0 {
      assert a + b == a;
    } else {
      var last := |b| - 1;
      assert (a + b)[..|a + b| - 1] == a + b[..last];
      TotalLengthAppend(a, b[..last]);
    }
  }

  /* ---------------- real arithmetic ---------------- */

  /** Multiplying by a non-negative factor keeps the order. */
  lemma MulLe(a: real, b: real, c: real)
    requires a <= b && c >= 0.0
    ensures a * c <= b * c
  {
  }

  /** Multiplying by a positive factor keeps the strict order. */
  lemma MulLt(a: real, b: real, c: real)
    requires a < b && c > 0.0
    ensures a * c < b * c
  {
  }

  /** A quotient by a positive divisor has the sign of the dividend. */
  lemma QuotientSign(a: real, d: real)
    requires d > 0.0
    ensures a == 0.0 ==> a / d == 0.0
    ensures a >= 0.0 ==> a / d >= 0.0
  {
    var q := a / d;
    assert q * d == a;
    if q < 0.0 { MulLt(q, 0.0, d); }
    if q > 0.0 { MulLt(0.0, q, d); }
  }

  /** The non-negative half of `QuotientSign`, for callers that know the
      dividend's sign. */
  lemma QuotientNonNegative(a: real, d: real)
    requires a >= 0.0 && d > 0.0
    ensures a / d >= 0.0
  {
    QuotientSign(a, d);
  }

  /** Comparing quotients with positive divisors by cross-multiplying. */
  lemma DivLeDiv(a: real, b: real, c: real, d: real)
    requires b > 0.0 && d > 0.0 && a * d <= c * b
    ensures a / b <= c / d
  {
    var p, q := a / b, c / d;
    assert p * b == a && q * d == c;
    assert a * d == p * (b * d) && c * b == q * (b * d);
    if p > q {
      MulLt(q, p, b * d);
    }
  }
}
