/** Routing each net as wire segments. A net with one sink is a single segment
    whose length is the rectilinear distance from source to sink. A net with
    more pins is routed along a rectilinear Steiner tree computed by an
    external library; this module takes that tree as input and turns its
    branches into named segments: terminals are found by their clamped
    integer coordinates, blank coordinates get fresh `sp_<k>` names from a
    counter shared by all nets, collapsed edges between stacked pins are
    redirected to another sink at the same place, and self-loops are
    dropped. */
module Steiner {
  import opened Model
  import Metrics

  /** A clamped integer location, the key of the coordinate-to-name map. */
  type Key = (nat, nat)

  function PinKey(p: Pin): Key
  {
    (Clamp(p.x), Clamp(p.y))
  }

  /** One branch of the tree: a point and the index of the branch it connects to. */
  datatype Branch = Branch(x: nat, y: nat, n: int)

  /** The tree returned for a net: its degree and its branch list. */
  datatype Tree = Tree(deg: int, branch: seq<Branch>)

  /** The number of branches visited, `2 * deg - 2` (none if that is not positive). */
  function BranchCount(t: Tree): nat
  {
    if 2 * t.deg - 2 > 0 then 2 * t.deg - 2 else 0
  }

  /** Every visited branch exists and points at an existing branch. */
  predicate ValidTree(t: Tree)
  {
    && BranchCount(t) <= |t.branch|
    && forall j :: 0 <= j < BranchCount(t) ==> 0 <= t.branch[j].n < |t.branch|
  }

  function BranchKey(b: Branch): Key
  {
    (b.x, b.y)
  }

  /** The length of the edge from branch `j` to the branch it points at. */
  function EdgeLength(t: Tree, j: nat): (d: real)
    requires ValidTree(t) && j < BranchCount(t)
    ensures d >= 0.0
    ensures d == 0.0 <==> BranchKey(t.branch[j]) == BranchKey(t.branch[t.branch[j].n])
  {
    var a, b := t.branch[j], t.branch[t.branch[j].n];
    Manhattan(a.x as real, a.y as real, b.x as real, b.y as real)
  }

  /** The summed length of the edges of the first `m` branches; a branch that
      points at itself has no edge. */
  function TreeLength(t: Tree, m: nat): (d: real)
    requires ValidTree(t) && m <= BranchCount(t)
    ensures d >= 0.0
  {
    if m == 0 then 0.0
    else TreeLength(t, m - 1) + (if t.branch[m - 1].n != m - 1 then EdgeLength(t, m - 1) else 0.0)
  }

  /** The longest edge among the first `m` branches (0 if there is none). */
  function TreeLongest(t: Tree, m: nat): (d: real)
    requires ValidTree(t) && m <= BranchCount(t)
    ensures d >= 0.0
    ensures forall j :: 0 <= j < m && t.branch[j].n != j ==> EdgeLength(t, j) <= d
  {
    if m == 0 then 0.0
    else Max(TreeLongest(t, m - 1), if t.branch[m - 1].n != m - 1 then EdgeLength(t, m - 1) else 0.0)
  }

  /** The longest edge is one of the edges, unless there are none longer than 0. */
  lemma {:induction false} LongestIsAnEdge(t: Tree, m: nat)
    requires ValidTree(t) && m <= BranchCount(t)
    ensures var d := TreeLongest(t, m);
      d == 0.0 || exists j :: 0 <= j < m && t.branch[j].n != j && d == EdgeLength(t, j)
  {
    if m > 0 {
      LongestIsAnEdge(t, m - 1);
    }
  }

  /** No edge is longer than the whole tree. */
  lemma {:induction false} LongestWithinLength(t: Tree, m: nat)
    requires ValidTree(t) && m <= BranchCount(t)
    ensures TreeLongest(t, m) <= TreeLength(t, m)
  {
    if m > 0 {
      LongestWithinLength(t, m - 1);
    }
  }

  /** The single segment of a net with one sink. */
  function TwoPinSegment(pins: seq<Pin>, n: Net, clockPort: string): (s: Segment)
    requires NetInRange(n, |pins|) && |n.sinks| == 1
    ensures s.len >= 0.0
  {
    var src, snk := pins[n.source], pins[n.sinks[0]];
    Segment(DriverName(src, clockPort), snk.name, Manhattan(src.x, src.y, snk.x, snk.y))
  }

  /** For a net with one sink the routed length equals the half-perimeter
      wirelength. */
  lemma TwoPinLengthIsHalfPerimeter(pins: seq<Pin>, n: Net, clockPort: string)
    requires NetInRange(n, |pins|) && |n.sinks| == 1
    ensures TwoPinSegment(pins, n, clockPort).len == Metrics.SpanX(pins, n) + Metrics.SpanY(pins, n)
  {
    Metrics.TwoPinHalfPerimeter(pins, n);
  }

  /** The coordinate-to-name map of a net: the source's driver name at its
      location, then each sink's name at its location, later sinks replacing
      whatever name was there. */
  function PinMapOf(pins: seq<Pin>, src: nat, sinks: seq<nat>, clockPort: string): (pm: map<Key, string>)
    requires src < |pins| && IdsInRange(sinks, |pins|)
  {
    if |sinks| == 0 then map[PinKey(pins[src]) := DriverName(pins[src], clockPort)]
    else
      var p := pins[sinks[|sinks| - 1]];
      PinMapOf(pins, src, sinks[..|sinks| - 1], clockPort)[PinKey(p) := p.name]
  }

  /** The last sink located at `key`, if any. */
  function LastSinkAt(pins: seq<Pin>, sinks: seq<nat>, key: Key): (r: Option<nat>)
    requires IdsInRange(sinks, |pins|)
    ensures r.Some? ==> r.value < |sinks| && PinKey(pins[sinks[r.value]]) == key
    ensures r.Some? ==> forall i :: r.value < i < |sinks| ==> PinKey(pins[sinks[i]]) != key
    ensures r.None? ==> forall i :: 0 <= i < |sinks| ==> PinKey(pins[sinks[i]]) != key
  {
    if |sinks| == 0 then None
    else if PinKey(pins[sinks[|sinks| - 1]]) == key then Some(|sinks| - 1)
    else LastSinkAt(pins, sinks[..|sinks| - 1], key)
  }

  /** What the map holds at a location: the name of the last sink there;
      otherwise the source's driver name if the source is there; otherwise
      nothing. */
  lemma {:induction false} PinMapNames(pins: seq<Pin>, src: nat, sinks: seq<nat>, clockPort: string, key: Key)
    requires src < |pins| && IdsInRange(sinks, |pins|)
    ensures var pm := PinMapOf(pins, src, sinks, clockPort);
      match LastSinkAt(pins, sinks, key)
      case Some(i) => key in pm && pm[key] == pins[sinks[i]].name
      case None =>
        && (key in pm <==> key == PinKey(pins[src]))
        && (key == PinKey(pins[src]) ==> pm[key] == DriverName(pins[src], clockPort))
    decreases |sinks|
  {
    if |sinks| > 0 {
      PinMapNames(pins, src, sinks[..|sinks| - 1], clockPort, key);
    }
  }

  /** Fills the coordinate-to-name map of a net. */
  method BuildPinMap(pins: seq<Pin>, n: Net, clockPort: string) returns (pm: map<Key, string>)
    requires NetInRange(n, |pins|)
    ensures pm == PinMapOf(pins, n.source, n.sinks, clockPort)
  {
    var src := pins[n.source];
    pm := map[PinKey(src) := DriverName(src, clockPort)];
    var j := 0;
    while j < |n.sinks|
      invariant 0 <= j <= |n.sinks|
      invariant pm == PinMapOf(pins, n.source, n.sinks[..j], clockPort)
    {
      assert n.sinks[..j + 1][..j] == n.sinks[..j];
      var p := pins[n.sinks[j]];
      pm := pm[PinKey(p) := p.name];
      j := j + 1;
    }
    assert n.sinks[..j] == n.sinks;
  }

  /** The name of the k-th Steiner point. */
  function SpName(k: nat): string
  {
    "sp_" + NatToString(k)
  }

  /** A Steiner point name numbered above `lo` and at most `hi`. */
  predicate SpInRange(s: string, lo: nat, hi: nat)
  {
    exists k: nat :: lo < k <= hi && s == SpName(k)
  }

  /** Looking a location up; a missing entry reads as the blank name. */
  function Lookup(pm: map<Key, string>, key: Key): string
  {
    if key in pm then pm[key] else ""
  }

  /** `pm'` keeps every non-blank name of `pm`. */
  predicate Extends(pm': map<Key, string>, pm: map<Key, string>)
  {
    forall key :: key in pm && pm[key] != "" ==> key in pm' && pm'[key] == pm[key]
  }

  /** The name at a location: the one in the map, or, for a blank location,
      the next Steiner point name, which is recorded there. Returns the name,
      the new map and the new counter. */
  function Resolve(pm: map<Key, string>, key: Key, cnt: nat): (r: (string, map<Key, string>, nat))
    ensures r.0 != "" && key in r.1 && r.1[key] == r.0
    ensures Lookup(pm, key) != "" ==> r.0 == pm[key] && r.1 == pm && r.2 == cnt
    ensures Lookup(pm, key) == "" ==> r.2 == cnt + 1 && r.0 == SpName(r.2)
  {
    var name := Lookup(pm, key);
    if name != "" then (name, pm, cnt)
    else (SpName(cnt + 1), pm[key := SpName(cnt + 1)], cnt + 1)
  }

  /** Resolving a location adds at most that location to the map and
      changes no other entry. */
  lemma ResolveKeeps(pm: map<Key, string>, key: Key, cnt: nat)
    ensures var r := Resolve(pm, key, cnt);
      && Extends(r.1, pm) && r.1.Keys == pm.Keys + {key}
      && forall k :: k in r.1 && k != key ==> k in pm && r.1[k] == pm[k]
  {
  }

  /** Whether sink `k` may stand in for the far end of an edge whose two ends
      got the same name `pin1` at location `at`: it has another name, sits at
      `at`, and the pair has not been connected yet. */
  predicate Eligible(pins: seq<Pin>, sinks: seq<nat>, k: nat, pin1: string, at: Key, covered: set<(string, string)>)
    requires IdsInRange(sinks, |pins|) && k < |sinks|
  {
    var p := pins[sinks[k]];
    p.name != pin1 && PinKey(p) == at && (pin1, p.name) !in covered
  }

  /** The name of the first sink from index `k` on that is eligible, if
      there is one. */
  function FirstEligible(pins: seq<Pin>, sinks: seq<nat>, pin1: string, at: Key, covered: set<(string, string)>, k: nat)
    : Option<string>
    requires IdsInRange(sinks, |pins|)
    decreases |sinks| - k
  {
    if k >= |sinks| then None
    else if Eligible(pins, sinks, k, pin1, at, covered) then Some(pins[sinks[k]].name)
    else FirstEligible(pins, sinks, pin1, at, covered, k + 1)
  }

  /** The substitute is missing exactly when no sink from `k` on is eligible;
      otherwise it is the name of an eligible sink with none eligible before
      it, so it differs from `pin1`, sits at `at` and is not yet paired with
      `pin1`. */
  lemma {:induction false} FirstEligibleIs(pins: seq<Pin>, sinks: seq<nat>, pin1: string, at: Key,
                                           covered: set<(string, string)>, k: nat)
    requires IdsInRange(sinks, |pins|) && k <= |sinks|
    ensures var r := FirstEligible(pins, sinks, pin1, at, covered, k);
      && (r.None? <==> forall i :: k <= i < |sinks| ==> !Eligible(pins, sinks, i, pin1, at, covered))
      && (r.Some? ==>
        exists i :: k <= i < |sinks| && Eligible(pins, sinks, i, pin1, at, covered) && r.value == pins[sinks[i]].name &&
          forall m :: k <= m < i ==> !Eligible(pins, sinks, m, pin1, at, covered))
    decreases |sinks| - k
  {
    if k < |sinks| {
      if Eligible(pins, sinks, k, pin1, at, covered) {
        assert FirstEligible(pins, sinks, pin1, at, covered, k) == Some(pins[sinks[k]].name);
      } else {
        FirstEligibleIs(pins, sinks, pin1, at, covered, k + 1);
        var r := FirstEligible(pins, sinks, pin1, at, covered, k + 1);
        assert FirstEligible(pins, sinks, pin1, at, covered, k) == r;
        if r.Some? {
          var i :| k + 1 <= i < |sinks| && Eligible(pins, sinks, i, pin1, at, covered) && r.value == pins[sinks[i]].name &&
            forall m :: k + 1 <= m < i ==> !Eligible(pins, sinks, m, pin1, at, covered);
          assert forall m :: k <= m < i ==> !Eligible(pins, sinks, m, pin1, at, covered);
        }
      }
    }
  }

  /** Scans the sinks in order for the first eligible one. */
  method FindSubstitute(pins: seq<Pin>, sinks: seq<nat>, pin1: string, at: Key, covered: set<(string, string)>)
    returns (r: Option<string>)
    requires IdsInRange(sinks, |pins|)
    ensures r == FirstEligible(pins, sinks, pin1, at, covered, 0)
  {
    var k := 0;
    while k < |sinks|
      invariant 0 <= k <= |sinks|
      invariant FirstEligible(pins, sinks, pin1, at, covered, k) == FirstEligible(pins, sinks, pin1, at, covered, 0)
    {
      var p := pins[sinks[k]];
      if p.name != pin1 && PinKey(p) == at && (pin1, p.name) !in covered {
        return Some(p.name);
      }
      k := k + 1;
    }
    return None;
  }

  /** Each non-blank name of the map is either the name it had in `pm0` or a
      Steiner point name handed out after `lo`, up to `hi`. */
  predicate NamesFrom(pm: map<Key, string>, pm0: map<Key, string>, lo: nat, hi: nat)
  {
    forall key :: key in pm ==> (key in pm0 && pm[key] == pm0[key]) || SpInRange(pm[key], lo, hi)
  }

  lemma NamesFromGrow(pm: map<Key, string>, pm0: map<Key, string>, lo: nat, hi: nat, hi': nat)
    requires NamesFrom(pm, pm0, lo, hi) && hi <= hi'
    ensures NamesFrom(pm, pm0, lo, hi')
  {
    forall key | key in pm && !(key in pm0 && pm[key] == pm0[key])
      ensures SpInRange(pm[key], lo, hi')
    {
      var k: nat :| lo < k <= hi && pm[key] == SpName(k);
    }
  }

  /** A location that has a non-blank name. */
  predicate Named(pm: map<Key, string>, key: Key)
  {
    key in pm && pm[key] != ""
  }

  lemma ResolveNames(pm: map<Key, string>, pm0: map<Key, string>, key: Key, cnt: nat, lo: nat)
    requires NamesFrom(pm, pm0, lo, cnt) && lo <= cnt
    ensures NamesFrom(Resolve(pm, key, cnt).1, pm0, lo, Resolve(pm, key, cnt).2)
  {
    var r := Resolve(pm, key, cnt);
    ResolveKeeps(pm, key, cnt);
    NamesFromGrow(pm, pm0, lo, cnt, r.2);
    if r.2 != cnt {
      assert SpInRange(r.0, lo, r.2);
    }
  }

  /** Both ends of branch `j`'s edge named, near end first, Steiner point
      names handed out for blank locations: the two names, the map and the
      counter after. */
  function ResolveEnds(t: Tree, j: nat, pm: map<Key, string>, cnt: nat): (string, string, map<Key, string>, nat)
    requires ValidTree(t) && j < BranchCount(t)
  {
    var r1 := Resolve(pm, BranchKey(t.branch[j]), cnt);
    var r2 := Resolve(r1.1, BranchKey(t.branch[t.branch[j].n]), r1.2);
    (r1.0, r2.0, r2.1, r2.2)
  }

  /** Naming the two ends hands out at most two Steiner point names, keeps
      every name already given, and leaves each end's name in the map. */
  lemma ResolveEndsNamed(t: Tree, j: nat, pm: map<Key, string>, cnt: nat)
    requires ValidTree(t) && j < BranchCount(t)
    ensures var e := ResolveEnds(t, j, pm, cnt);
      && cnt <= e.3 <= cnt + 2
      && Extends(e.2, pm)
      && Named(e.2, BranchKey(t.branch[j])) && e.2[BranchKey(t.branch[j])] == e.0
      && Named(e.2, BranchKey(t.branch[t.branch[j].n])) && e.2[BranchKey(t.branch[t.branch[j].n])] == e.1
  {
    var near := BranchKey(t.branch[j]);
    var r1 := Resolve(pm, near, cnt);
    var r2 := Resolve(r1.1, BranchKey(t.branch[t.branch[j].n]), r1.2);
    ResolveKeeps(pm, near, cnt);
    ResolveKeeps(r1.1, BranchKey(t.branch[t.branch[j].n]), r1.2);
    ExtendsTrans(r2.1, r1.1, pm);
    ExtendsKeepsNamed(r2.1, r1.1, near);
  }

  /** The names handed out while naming the ends are numbered after `cnt`. */
  lemma ResolveEndsNames(t: Tree, j: nat, pm: map<Key, string>, cnt: nat, pm0: map<Key, string>, lo: nat)
    requires ValidTree(t) && j < BranchCount(t)
    requires NamesFrom(pm, pm0, lo, cnt) && lo <= cnt
    ensures NamesFrom(ResolveEnds(t, j, pm, cnt).2, pm0, lo, ResolveEnds(t, j, pm, cnt).3)
  {
    var r1 := Resolve(pm, BranchKey(t.branch[j]), cnt);
    ResolveNames(pm, pm0, BranchKey(t.branch[j]), cnt, lo);
    ResolveNames(r1.1, pm0, BranchKey(t.branch[t.branch[j].n]), r1.2, lo);
  }

  /** The names an edge is routed between: both ends resolved and, when they
      came out equal, the first eligible sink standing in for the far end if
      there is one. Returns the two names, the map and the counter after. */
  function EdgeEnds(pins: seq<Pin>, sinks: seq<nat>, t: Tree, j: nat, pm: map<Key, string>, cnt: nat,
                    covered: set<(string, string)>): (string, string, map<Key, string>, nat)
    requires IdsInRange(sinks, |pins|) && ValidTree(t) && j < BranchCount(t)
  {
    var e := ResolveEnds(t, j, pm, cnt);
    var sub := FirstEligible(pins, sinks, e.0, BranchKey(t.branch[j]), covered, 0);
    (e.0, if e.0 == e.1 && sub.Some? then sub.value else e.1, e.2, e.3)
  }

  /** The state of the routing loop over one tree. */
  datatype Routing = Routing(segs: seq<Segment>, pm: map<Key, string>, cnt: nat, covered: set<(string, string)>)

  /** Branch `j` of the routing loop: nothing when it points at itself;
      otherwise a segment between its routed names unless they agree, and
      the pair marked covered either way. */
  function EdgeStep(pins: seq<Pin>, sinks: seq<nat>, t: Tree, j: nat, st: Routing): Routing
    requires IdsInRange(sinks, |pins|) && ValidTree(t) && j < BranchCount(t)
  {
    if t.branch[j].n == j then st
    else
      var e := EdgeEnds(pins, sinks, t, j, st.pm, st.cnt, st.covered);
      Routing(if e.0 != e.1 then st.segs + [Segment(e.0, e.1, EdgeLength(t, j))] else st.segs,
              e.2, e.3, st.covered + {(e.0, e.1)})
  }

  /** The routing state after the first `m` branches, starting from the
      coordinate map `pm0` and the counter `cnt0` with nothing covered. */
  function RouteFrom(pins: seq<Pin>, sinks: seq<nat>, t: Tree, m: nat, pm0: map<Key, string>, cnt0: nat): Routing
    requires IdsInRange(sinks, |pins|) && ValidTree(t) && m <= BranchCount(t)
    decreases m, 1
  {
    if m == 0 then Routing([], pm0, cnt0, {})
    else RouteThrough(pins, sinks, t, m - 1, pm0, cnt0)
  }

  /** The routing state once branch `j` has been routed as well. */
  function RouteThrough(pins: seq<Pin>, sinks: seq<nat>, t: Tree, j: nat, pm0: map<Key, string>, cnt0: nat): Routing
    requires IdsInRange(sinks, |pins|) && ValidTree(t) && j < BranchCount(t)
    decreases j + 1, 0
  {
    EdgeStep(pins, sinks, t, j, RouteFrom(pins, sinks, t, j, pm0, cnt0))
  }

  /** Routing branch `m - 1` after the first `m - 1` is one step of the
      routing loop. */
  lemma RouteFromStep(pins: seq<Pin>, sinks: seq<nat>, t: Tree, m: nat, pm0: map<Key, string>, cnt0: nat)
    requires IdsInRange(sinks, |pins|) && ValidTree(t) && 0 < m <= BranchCount(t)
    ensures RouteFrom(pins, sinks, t, m, pm0, cnt0) == EdgeStep(pins, sinks, t, m - 1, RouteFrom(pins, sinks, t, m - 1, pm0, cnt0))
  {
    assert RouteFrom(pins, sinks, t, m, pm0, cnt0) == RouteThrough(pins, sinks, t, m - 1, pm0, cnt0);
  }

  /** Routes the edge of branch `j`: names both ends and, when they got the
      same name, takes the first eligible sink as the far end; emits a
      segment unless the two names still agree, and marks the pair covered. */
  method RouteEdge(pins: seq<Pin>, sinks: seq<nat>, t: Tree, j: nat, pm: map<Key, string>, cnt: nat,
                   covered: set<(string, string)>)
    returns (seg: Option<Segment>, pm': map<Key, string>, cnt': nat, covered': set<(string, string)>)
    requires IdsInRange(sinks, |pins|) && ValidTree(t) && j < BranchCount(t) && t.branch[j].n != j
    ensures var e := EdgeEnds(pins, sinks, t, j, pm, cnt, covered);
      && seg == (if e.0 != e.1 then Some(Segment(e.0, e.1, EdgeLength(t, j))) else None)
      && pm' == e.2 && cnt' == e.3 && covered' == covered + {(e.0, e.1)}
  {
    var e := ResolveEnds(t, j, pm, cnt);
    var pin1, pin2 := e.0, e.1;
    pm', cnt' := e.2, e.3;
    if pin1 == pin2 {
      var sub := FindSubstitute(pins, sinks, pin1, BranchKey(t.branch[j]), covered);
      if sub.Some? {
        pin2 := sub.value;
      }
    }
    seg := if pin1 != pin2 then Some(Segment(pin1, pin2, EdgeLength(t, j))) else None;
    covered' := covered + {(pin1, pin2)};
  }

  /** Turns the branches of a tree into segments, starting from the
      coordinate map `pm0` and the counter `cnt0`. Returns the segments, the
      summed and the longest edge length (dropped edges included), the
      counter and the final map. */
  method RouteTree(pins: seq<Pin>, sinks: seq<nat>, t: Tree, pm0: map<Key, string>, cnt0: nat)
    returns (segs: seq<Segment>, added: real, longest: real, cnt: nat, pm: map<Key, string>)
    requires IdsInRange(sinks, |pins|) && ValidTree(t)
    ensures added == TreeLength(t, BranchCount(t))
    ensures longest == TreeLongest(t, BranchCount(t))
    ensures var st := RouteFrom(pins, sinks, t, BranchCount(t), pm0, cnt0);
      segs == st.segs && cnt == st.cnt && pm == st.pm
  {
    pm := pm0;
    var covered: set<(string, string)> := {};
    segs, added, longest, cnt := [], 0.0, 0.0, cnt0;
    var j := 0;
    while j < BranchCount(t)
      invariant 0 <= j <= BranchCount(t)
      invariant added == TreeLength(t, j) && longest == TreeLongest(t, j)
      invariant Routing(segs, pm, cnt, covered) == RouteFrom(pins, sinks, t, j, pm0, cnt0)
    {
      segs, added, longest, pm, cnt, covered := RouteBranch(pins, sinks, t, j, segs, added, longest, pm, cnt, covered);
      j := j + 1;
      RouteFromStep(pins, sinks, t, j, pm0, cnt0);
    }
  }

  /** One step of the routing loop: branch `j`'s edge, when it has one, adds
      its length, may raise the longest length and is routed by `RouteEdge`. */
  method RouteBranch(pins: seq<Pin>, sinks: seq<nat>, t: Tree, j: nat, segs: seq<Segment>, added: real, longest: real,
                     pm: map<Key, string>, cnt: nat, covered: set<(string, string)>)
    returns (segs': seq<Segment>, added': real, longest': real, pm': map<Key, string>, cnt': nat, covered': set<(string, string)>)
    requires IdsInRange(sinks, |pins|) && ValidTree(t) && j < BranchCount(t)
    requires added == TreeLength(t, j) && longest == TreeLongest(t, j)
    ensures added' == TreeLength(t, j + 1) && longest' == TreeLongest(t, j + 1)
    ensures Routing(segs', pm', cnt', covered') == EdgeStep(pins, sinks, t, j, Routing(segs, pm, cnt, covered))
  {
    segs', added', longest', pm', cnt', covered' := segs, added, longest, pm, cnt, covered;
    if t.branch[j].n != j {
      var len := EdgeLength(t, j);
      added' := added + len;
      longest' := Max(longest, len);
      var seg;
      seg, pm', cnt', covered' := RouteEdge(pins, sinks, t, j, pm, cnt, covered);
      if seg.Some? {
        segs' := segs + [seg.value];
      }
    }
  }

  /** The segments of a net with two or more sinks: its coordinate map is
      built and its tree's branches are turned into segments. */
  method MultiPinSegments(pins: seq<Pin>, n: Net, t: Tree, clockPort: string, cnt0: nat)
    returns (segs: seq<Segment>, added: real, longest: real, cnt: nat, pm: map<Key, string>)
    requires NetInRange(n, |pins|) && ValidTree(t)
    ensures added == TreeLength(t, BranchCount(t))
    ensures longest == TreeLongest(t, BranchCount(t))
    ensures var st := RouteFrom(pins, n.sinks, t, BranchCount(t), PinMapOf(pins, n.source, n.sinks, clockPort), cnt0);
      segs == st.segs && cnt == st.cnt && pm == st.pm
  {
    var pm0 := BuildPinMap(pins, n, clockPort);
    segs, added, longest, cnt, pm := RouteTree(pins, n.sinks, t, pm0, cnt0);
  }

  /** Routing branch `m - 1` keeps the segments there were and adds at
      most one; it keeps every name already given and never lowers the
      counter. */
  lemma StepKeeps(pins: seq<Pin>, sinks: seq<nat>, t: Tree, m: nat, pm0: map<Key, string>, cnt0: nat)
    requires IdsInRange(sinks, |pins|) && ValidTree(t) && 0 < m <= BranchCount(t)
    ensures var st, st' := RouteFrom(pins, sinks, t, m - 1, pm0, cnt0), RouteFrom(pins, sinks, t, m, pm0, cnt0);
      && st.cnt <= st'.cnt && Extends(st'.pm, st.pm)
      && st.segs <= st'.segs && |st'.segs| <= |st.segs| + 1
  {
    var st := RouteFrom(pins, sinks, t, m - 1, pm0, cnt0);
    RouteFromStep(pins, sinks, t, m, pm0, cnt0);
    if t.branch[m - 1].n != m - 1 {
      ResolveEndsNamed(t, m - 1, st.pm, st.cnt);
    }
  }

  /** The names of `st` after routing the first `m` branches from the names
      `pm0` and the counter `cnt0`: the counter has not gone down, every
      name given before is kept, every other name is a Steiner point name
      numbered after `cnt0` and up to the counter, and both ends of every
      edge among the first `m` branches are named. */
  predicate NamedSoFar(t: Tree, pm0: map<Key, string>, cnt0: nat, m: nat, st: Routing)
    requires ValidTree(t) && m <= BranchCount(t)
  {
    && cnt0 <= st.cnt
    && Extends(st.pm, pm0) && NamesFrom(st.pm, pm0, cnt0, st.cnt)
    && EdgesNamed(t, st.pm, m)
  }

  /** Routing branch `m - 1` keeps the names given so far, names both ends
      of its edge, and numbers the names it hands out after `cnt0`. */
  lemma StepNames(pins: seq<Pin>, sinks: seq<nat>, t: Tree, m: nat, pm0: map<Key, string>, cnt0: nat)
    requires IdsInRange(sinks, |pins|) && ValidTree(t) && 0 < m <= BranchCount(t)
    requires NamedSoFar(t, pm0, cnt0, m - 1, RouteFrom(pins, sinks, t, m - 1, pm0, cnt0))
    ensures NamedSoFar(t, pm0, cnt0, m, RouteFrom(pins, sinks, t, m, pm0, cnt0))
  {
    var j := m - 1;
    var st, st' := RouteFrom(pins, sinks, t, j, pm0, cnt0), RouteFrom(pins, sinks, t, m, pm0, cnt0);
    RouteFromStep(pins, sinks, t, m, pm0, cnt0);
    if t.branch[j].n != j {
      ResolveEndsNamed(t, j, st.pm, st.cnt);
      ResolveEndsNames(t, j, st.pm, st.cnt, pm0, cnt0);
    }
    EdgesStayNamed(t, st'.pm, st.pm, j);
    StepKeeps(pins, sinks, t, m, pm0, cnt0);
    ExtendsTrans(st'.pm, st.pm, pm0);
  }

  /** The segment routing branch `m - 1` adds, if any, is for its own edge
      and joins two different names, so the segments grow by at most the
      edge's length. */
  lemma StepLength(pins: seq<Pin>, sinks: seq<nat>, t: Tree, m: nat, pm0: map<Key, string>, cnt0: nat)
    requires IdsInRange(sinks, |pins|) && ValidTree(t) && 0 < m <= BranchCount(t)
    ensures var st, st' := RouteFrom(pins, sinks, t, m - 1, pm0, cnt0), RouteFrom(pins, sinks, t, m, pm0, cnt0);
      && (forall i :: |st.segs| <= i < |st'.segs| ==>
        t.branch[m - 1].n != m - 1 && st'.segs[i].end1 != st'.segs[i].end2 && st'.segs[i].len == EdgeLength(t, m - 1))
      && TotalLength(st'.segs) <= TotalLength(st.segs) + (if t.branch[m - 1].n != m - 1 then EdgeLength(t, m - 1) else 0.0)
  {
    var j := m - 1;
    var st := RouteFrom(pins, sinks, t, j, pm0, cnt0);
    RouteFromStep(pins, sinks, t, m, pm0, cnt0);
    if t.branch[j].n != j {
      var e := EdgeEnds(pins, sinks, t, j, st.pm, st.cnt, st.covered);
      if e.0 != e.1 {
        AppendLength(st.segs, Segment(e.0, e.1, EdgeLength(t, j)));
      }
    }
  }

  /** Routing the first `m` branches keeps every name given before, hands
      out only Steiner point names numbered after `cnt0`, and names both
      ends of every edge. */
  lemma {:induction false} RouteFromNames(pins: seq<Pin>, sinks: seq<nat>, t: Tree, m: nat, pm0: map<Key, string>, cnt0: nat)
    requires IdsInRange(sinks, |pins|) && ValidTree(t) && m <= BranchCount(t)
    ensures NamedSoFar(t, pm0, cnt0, m, RouteFrom(pins, sinks, t, m, pm0, cnt0))
  {
    if m > 0 {
      RouteFromNames(pins, sinks, t, m - 1, pm0, cnt0);
      StepNames(pins, sinks, t, m, pm0, cnt0);
    }
  }

  /** Routing the first `m` branches gives at most one segment per branch,
      none joining a name to itself, and no longer in total than the
      edges. */
  lemma {:induction false} RouteFromSegments(pins: seq<Pin>, sinks: seq<nat>, t: Tree, m: nat, pm0: map<Key, string>, cnt0: nat)
    requires IdsInRange(sinks, |pins|) && ValidTree(t) && m <= BranchCount(t)
    ensures var st := RouteFrom(pins, sinks, t, m, pm0, cnt0);
      && (forall i :: 0 <= i < |st.segs| ==> st.segs[i].end1 != st.segs[i].end2)
      && TotalLength(st.segs) <= TreeLength(t, m)
      && |st.segs| <= m
  {
    if m > 0 {
      RouteFromSegments(pins, sinks, t, m - 1, pm0, cnt0);
      StepKeeps(pins, sinks, t, m, pm0, cnt0);
      StepLength(pins, sinks, t, m, pm0, cnt0);
    }
  }

  /** A sink of the net named `name` located at `at`. */
  predicate SinkAt(pins: seq<Pin>, sinks: seq<nat>, name: string, at: Key)
    requires IdsInRange(sinks, |pins|)
  {
    exists k :: 0 <= k < |sinks| && pins[sinks[k]].name == name && PinKey(pins[sinks[k]]) == at
  }

  /** The segment routing branch `m - 1` adds, if any, carries its edge's
      length and starts at the name its near end now has; it ends at the
      name its far end now has or at a sink standing at the near end. When
      the two ends now carry different names, that segment is exactly the
      one added. */
  lemma StepSegment(pins: seq<Pin>, sinks: seq<nat>, t: Tree, m: nat, pm0: map<Key, string>, cnt0: nat)
    requires IdsInRange(sinks, |pins|) && ValidTree(t) && 0 < m <= BranchCount(t)
    ensures var st, st' := RouteFrom(pins, sinks, t, m - 1, pm0, cnt0), RouteFrom(pins, sinks, t, m, pm0, cnt0);
      var near, far := BranchKey(t.branch[m - 1]), BranchKey(t.branch[t.branch[m - 1].n]);
      var a, b := Lookup(st'.pm, near), Lookup(st'.pm, far);
      && (|st'.segs| > |st.segs| ==>
        && st'.segs == st.segs + [st'.segs[|st.segs|]]
        && st'.segs[|st.segs|].len == EdgeLength(t, m - 1)
        && st'.segs[|st.segs|].end1 == a
        && (st'.segs[|st.segs|].end2 == b || SinkAt(pins, sinks, st'.segs[|st.segs|].end2, near)))
      && (t.branch[m - 1].n != m - 1 && a != b ==> st'.segs == st.segs + [Segment(a, b, EdgeLength(t, m - 1))])
  {
    var j := m - 1;
    var st := RouteFrom(pins, sinks, t, j, pm0, cnt0);
    RouteFromStep(pins, sinks, t, m, pm0, cnt0);
    if t.branch[j].n != j {
      ResolveEndsNamed(t, j, st.pm, st.cnt);
      var e := ResolveEnds(t, j, st.pm, st.cnt);
      FirstEligibleIs(pins, sinks, e.0, BranchKey(t.branch[j]), st.covered, 0);
    }
  }

  /** Segment `s` comes from the edge of branch `j` under the names `pm`
      gives: it carries the edge's length, starts at the near end's name and
      ends at the far end's name or at a sink standing at the near end. */
  predicate SegmentOf(pins: seq<Pin>, sinks: seq<nat>, t: Tree, j: nat, pm: map<Key, string>, s: Segment)
    requires IdsInRange(sinks, |pins|) && ValidTree(t) && j < BranchCount(t)
  {
    && t.branch[j].n != j && s.len == EdgeLength(t, j)
    && s.end1 == Lookup(pm, BranchKey(t.branch[j]))
    && (s.end2 == Lookup(pm, BranchKey(t.branch[t.branch[j].n])) || SinkAt(pins, sinks, s.end2, BranchKey(t.branch[j])))
  }

  /** Segment `s` comes from one of the first `m` branch edges under the
      names `pm` gives. */
  predicate FromSomeEdge(pins: seq<Pin>, sinks: seq<nat>, t: Tree, m: nat, pm: map<Key, string>, s: Segment)
    requires IdsInRange(sinks, |pins|) && ValidTree(t) && m <= BranchCount(t)
  {
    exists j :: 0 <= j < m && SegmentOf(pins, sinks, t, j, pm, s)
  }

  /** Every segment of `st` comes from one of the first `m` branch edges
      under the names `st` gives. */
  predicate SegmentsFromEdges(pins: seq<Pin>, sinks: seq<nat>, t: Tree, m: nat, st: Routing)
    requires IdsInRange(sinks, |pins|) && ValidTree(t) && m <= BranchCount(t)
  {
    forall i :: 0 <= i < |st.segs| ==> FromSomeEdge(pins, sinks, t, m, st.pm, st.segs[i])
  }

  /** Routing branch `m - 1` keeps every segment tied to its edge: the old
      segments keep their names, and the new one comes from branch `m - 1`. */
  lemma StepFromEdges(pins: seq<Pin>, sinks: seq<nat>, t: Tree, m: nat, pm0: map<Key, string>, cnt0: nat)
    requires IdsInRange(sinks, |pins|) && ValidTree(t) && 0 < m <= BranchCount(t)
    requires SegmentsFromEdges(pins, sinks, t, m - 1, RouteFrom(pins, sinks, t, m - 1, pm0, cnt0))
    ensures SegmentsFromEdges(pins, sinks, t, m, RouteFrom(pins, sinks, t, m, pm0, cnt0))
  {
    var j := m - 1;
    var prev, st := RouteFrom(pins, sinks, t, j, pm0, cnt0), RouteFrom(pins, sinks, t, m, pm0, cnt0);
    RouteFromNames(pins, sinks, t, j, pm0, cnt0);
    StepKeeps(pins, sinks, t, m, pm0, cnt0);
    StepSegment(pins, sinks, t, m, pm0, cnt0);
    forall i | 0 <= i < |st.segs|
      ensures FromSomeEdge(pins, sinks, t, m, st.pm, st.segs[i])
    {
      if i < |prev.segs| {
        var s := prev.segs[i];
        assert FromSomeEdge(pins, sinks, t, j, prev.pm, s);
        var jj :| 0 <= jj < j && SegmentOf(pins, sinks, t, jj, prev.pm, s);
        SegmentOfSurvives(pins, sinks, t, jj, prev.pm, st.pm, s);
        assert st.segs[i] == s;
      } else {
        assert SegmentOf(pins, sinks, t, j, st.pm, st.segs[i]);
      }
    }
  }

  /** A segment from an edge whose ends are named stays one under names
      that keep theirs. */
  lemma SegmentOfSurvives(pins: seq<Pin>, sinks: seq<nat>, t: Tree, j: nat, pm: map<Key, string>, pm': map<Key, string>, s: Segment)
    requires IdsInRange(sinks, |pins|) && ValidTree(t) && j < BranchCount(t)
    requires SegmentOf(pins, sinks, t, j, pm, s) && Extends(pm', pm)
    requires Named(pm, BranchKey(t.branch[j])) && Named(pm, BranchKey(t.branch[t.branch[j].n]))
    ensures SegmentOf(pins, sinks, t, j, pm', s)
  {
    ExtendsKeepsNamed(pm', pm, BranchKey(t.branch[j]));
    ExtendsKeepsNamed(pm', pm, BranchKey(t.branch[t.branch[j].n]));
  }

  /** Every segment of the first `m` branches comes from one of their
      edges under the names routing them leaves. */
  lemma {:induction false} RouteFromEdges(pins: seq<Pin>, sinks: seq<nat>, t: Tree, m: nat, pm0: map<Key, string>, cnt0: nat)
    requires IdsInRange(sinks, |pins|) && ValidTree(t) && m <= BranchCount(t)
    ensures SegmentsFromEdges(pins, sinks, t, m, RouteFrom(pins, sinks, t, m, pm0, cnt0))
  {
    if m > 0 {
      RouteFromEdges(pins, sinks, t, m - 1, pm0, cnt0);
      StepFromEdges(pins, sinks, t, m, pm0, cnt0);
    }
  }

  /** Every segment comes from one branch edge: it carries the edge's length,
      starts at the name its near end finally has, and ends at the name its
      far end finally has or at a sink standing at the near end. */
  lemma SegmentsAreEdges(pins: seq<Pin>, sinks: seq<nat>, t: Tree, m: nat, pm0: map<Key, string>, cnt0: nat, i: nat)
    requires IdsInRange(sinks, |pins|) && ValidTree(t) && m <= BranchCount(t)
    requires i < |RouteFrom(pins, sinks, t, m, pm0, cnt0).segs|
    ensures var st := RouteFrom(pins, sinks, t, m, pm0, cnt0);
      exists j :: 0 <= j < m && SegmentOf(pins, sinks, t, j, st.pm, st.segs[i])
  {
    RouteFromEdges(pins, sinks, t, m, pm0, cnt0);
    var st := RouteFrom(pins, sinks, t, m, pm0, cnt0);
    assert FromSomeEdge(pins, sinks, t, m, st.pm, st.segs[i]);
  }

  /** Both ends of the edge of branch `j` are named in `st` and, when their
      names differ, the segment between them is among its segments. */
  predicate EdgeYields(t: Tree, j: nat, st: Routing)
    requires ValidTree(t) && j < BranchCount(t)
  {
    var near, far := BranchKey(t.branch[j]), BranchKey(t.branch[t.branch[j].n]);
    && Named(st.pm, near) && Named(st.pm, far)
    && (st.pm[near] != st.pm[far] ==> Segment(st.pm[near], st.pm[far], EdgeLength(t, j)) in st.segs)
  }

  /** Every edge among the first `m` branches yields its segment in `st`. */
  predicate EdgesYield(t: Tree, m: nat, st: Routing)
    requires ValidTree(t) && m <= BranchCount(t)
  {
    forall j :: 0 <= j < m && t.branch[j].n != j ==> EdgeYields(t, j, st)
  }

  /** Right after branch `m - 1` is routed, its edge yields its segment. */
  lemma EdgeYieldsSegment(pins: seq<Pin>, sinks: seq<nat>, t: Tree, m: nat, pm0: map<Key, string>, cnt0: nat)
    requires IdsInRange(sinks, |pins|) && ValidTree(t) && 0 < m <= BranchCount(t) && t.branch[m - 1].n != m - 1
    ensures EdgeYields(t, m - 1, RouteFrom(pins, sinks, t, m, pm0, cnt0))
  {
    var j := m - 1;
    var prev, here := RouteFrom(pins, sinks, t, j, pm0, cnt0), RouteFrom(pins, sinks, t, m, pm0, cnt0);
    RouteFromStep(pins, sinks, t, m, pm0, cnt0);
    ResolveEndsNamed(t, j, prev.pm, prev.cnt);
    StepSegment(pins, sinks, t, m, pm0, cnt0);
    var near, far := BranchKey(t.branch[j]), BranchKey(t.branch[t.branch[j].n]);
    if here.pm[near] != here.pm[far] {
      assert here.segs[|here.segs| - 1] == Segment(here.pm[near], here.pm[far], EdgeLength(t, j));
    }
  }

  /** Routing branch `m - 1` keeps the segment of every earlier edge under
      the names it now has, and adds the one of its own edge. */
  lemma StepYields(pins: seq<Pin>, sinks: seq<nat>, t: Tree, m: nat, pm0: map<Key, string>, cnt0: nat)
    requires IdsInRange(sinks, |pins|) && ValidTree(t) && 0 < m <= BranchCount(t)
    requires EdgesYield(t, m - 1, RouteFrom(pins, sinks, t, m - 1, pm0, cnt0))
    ensures EdgesYield(t, m, RouteFrom(pins, sinks, t, m, pm0, cnt0))
  {
    var prev, st := RouteFrom(pins, sinks, t, m - 1, pm0, cnt0), RouteFrom(pins, sinks, t, m, pm0, cnt0);
    StepKeeps(pins, sinks, t, m, pm0, cnt0);
    forall i | 0 <= i < m && t.branch[i].n != i
      ensures EdgeYields(t, i, st)
    {
      if i < m - 1 {
        assert EdgeYields(t, i, prev);
        SegmentSurvives(prev, st, BranchKey(t.branch[i]), BranchKey(t.branch[t.branch[i].n]), EdgeLength(t, i));
      } else {
        EdgeYieldsSegment(pins, sinks, t, m, pm0, cnt0);
      }
    }
  }

  /** After the first `m` branches, every routed edge yields its segment
      under the names routing them leaves. */
  lemma {:induction false} RouteFromYields(pins: seq<Pin>, sinks: seq<nat>, t: Tree, m: nat, pm0: map<Key, string>, cnt0: nat)
    requires IdsInRange(sinks, |pins|) && ValidTree(t) && m <= BranchCount(t)
    ensures EdgesYield(t, m, RouteFrom(pins, sinks, t, m, pm0, cnt0))
  {
    if m > 0 {
      RouteFromYields(pins, sinks, t, m - 1, pm0, cnt0);
      StepYields(pins, sinks, t, m, pm0, cnt0);
    }
  }

  /** Both ends of every routed edge keep a name, and when the two names
      finally differ, the segment between them is among the net's
      segments. */
  lemma EdgesYieldSegments(pins: seq<Pin>, sinks: seq<nat>, t: Tree, m: nat, pm0: map<Key, string>, cnt0: nat, j: nat)
    requires IdsInRange(sinks, |pins|) && ValidTree(t) && m <= BranchCount(t)
    requires j < m && t.branch[j].n != j
    ensures var st := RouteFrom(pins, sinks, t, m, pm0, cnt0);
      var near, far := BranchKey(t.branch[j]), BranchKey(t.branch[t.branch[j].n]);
      && Named(st.pm, near) && Named(st.pm, far)
      && (st.pm[near] != st.pm[far] ==> Segment(st.pm[near], st.pm[far], EdgeLength(t, j)) in st.segs)
  {
    RouteFromYields(pins, sinks, t, m, pm0, cnt0);
    assert EdgeYields(t, j, RouteFrom(pins, sinks, t, m, pm0, cnt0));
  }

  /** A segment between two named locations survives a later state that
      keeps the segments and the names. */
  lemma SegmentSurvives(here: Routing, st: Routing, near: Key, far: Key, len: real)
    requires Named(here.pm, near) && Named(here.pm, far)
    requires here.pm[near] != here.pm[far] ==> Segment(here.pm[near], here.pm[far], len) in here.segs
    requires Extends(st.pm, here.pm) && here.segs <= st.segs
    ensures Named(st.pm, near) && Named(st.pm, far)
    ensures st.pm[near] != st.pm[far] ==> Segment(st.pm[near], st.pm[far], len) in st.segs
  {
    ExtendsKeepsNamed(st.pm, here.pm, near);
    ExtendsKeepsNamed(st.pm, here.pm, far);
  }

  lemma AppendLength(segs: seq<Segment>, s: Segment)
    ensures TotalLength(segs + [s]) == TotalLength(segs) + s.len
  {
    assert (segs + [s])[..|segs|] == segs;
  }

  /** Both ends of every edge among the first `m` branches have names. */
  predicate EdgesNamed(t: Tree, pm: map<Key, string>, m: nat)
    requires ValidTree(t) && m <= BranchCount(t)
  {
    forall i :: 0 <= i < m && t.branch[i].n != i ==>
      Named(pm, BranchKey(t.branch[i])) && Named(pm, BranchKey(t.branch[t.branch[i].n]))
  }

  lemma EdgesStayNamed(t: Tree, pm': map<Key, string>, pm: map<Key, string>, j: nat)
    requires ValidTree(t) && j < BranchCount(t)
    requires EdgesNamed(t, pm, j) && Extends(pm', pm)
    requires t.branch[j].n != j ==>
      Named(pm', BranchKey(t.branch[j])) && Named(pm', BranchKey(t.branch[t.branch[j].n]))
    ensures EdgesNamed(t, pm', j + 1)
  {
    forall i | 0 <= i < j && t.branch[i].n != i
      ensures Named(pm', BranchKey(t.branch[i])) && Named(pm', BranchKey(t.branch[t.branch[i].n]))
    {
      ExtendsKeepsNamed(pm', pm, BranchKey(t.branch[i]));
      ExtendsKeepsNamed(pm', pm, BranchKey(t.branch[t.branch[i].n]));
    }
  }

  lemma ExtendsKeepsNamed(pm': map<Key, string>, pm: map<Key, string>, key: Key)
    requires Extends(pm', pm) && Named(pm, key)
    ensures Named(pm', key) && pm'[key] == pm[key]
  {
  }

  lemma ExtendsTrans(a: map<Key, string>, b: map<Key, string>, c: map<Key, string>)
    requires Extends(a, b) && Extends(b, c)
    ensures Extends(a, c)
  {
  }

  /** The routed length of a net before conversion to microns: the
      source-to-sink distance for one sink, the tree's length for more. */
  function NetLength(pins: seq<Pin>, n: Net, t: Tree): (d: real)
    requires NetInRange(n, |pins|) && (|n.sinks| >= 2 ==> ValidTree(t))
    ensures d >= 0.0
  {
    if |n.sinks| == 1 then TwoPinSegment(pins, n, "").len
    else if |n.sinks| >= 2 then TreeLength(t, BranchCount(t))
    else 0.0
  }

  predicate TreesFor(nets: seq<Net>, trees: seq<Tree>)
  {
    |trees| == |nets| && forall k :: 0 <= k < |nets| && |nets[k].sinks| >= 2 ==> ValidTree(trees[k])
  }

  function SumNetLength(pins: seq<Pin>, nets: seq<Net>, trees: seq<Tree>): (d: real)
    requires NetsInRange(nets, |pins|) && TreesFor(nets, trees)
    ensures d >= 0.0
  {
    if |nets| == 0 then 0.0
    else
      var m := |nets| - 1;
      SumNetLength(pins, nets[..m], trees[..m]) + NetLength(pins, nets[m], trees[m])
  }

  lemma SumNetLengthStep(pins: seq<Pin>, nets: seq<Net>, trees: seq<Tree>, k: nat)
    requires NetsInRange(nets, |pins|) && TreesFor(nets, trees) && k < |nets|
    ensures NetsInRange(nets[..k], |pins|) && TreesFor(nets[..k], trees[..k])
    ensures SumNetLength(pins, nets[..k + 1], trees[..k + 1]) == SumNetLength(pins, nets[..k], trees[..k]) + NetLength(pins, nets[k], trees[k])
  {
    assert nets[..k + 1][..k] == nets[..k] && trees[..k + 1][..k] == trees[..k];
  }

  /** A node name a net's wires may join, with its Steiner points numbered
      above `lo` and at most `hi`: the source's driver name, a sink's name, or
      one of those Steiner points. */
  predicate NetNode(pins: seq<Pin>, n: Net, clockPort: string, name: string, lo: nat, hi: nat)
    requires NetInRange(n, |pins|)
  {
    || name == DriverName(pins[n.source], clockPort)
    || (exists k :: 0 <= k < |n.sinks| && pins[n.sinks[k]].name == name)
    || SpInRange(name, lo, hi)
  }

  /** The segments routing leaves for a net and the Steiner point counter
      after it, when the counter stands at `cnt` before it: none for a net
      without sinks, the two-pin segment for one sink, the tree's routing
      for more. */
  function Routed(pins: seq<Pin>, n: Net, t: Tree, clockPort: string, cnt: nat): (seq<Segment>, nat)
    requires NetInRange(n, |pins|) && (|n.sinks| >= 2 ==> ValidTree(t))
  {
    if |n.sinks| == 1 then ([TwoPinSegment(pins, n, clockPort)], cnt)
    else if |n.sinks| >= 2 then
      var st := RouteFrom(pins, n.sinks, t, BranchCount(t), PinMapOf(pins, n.source, n.sinks, clockPort), cnt);
      (st.segs, st.cnt)
    else ([], cnt)
  }

  /** A name the coordinate map holds is the source's driver name or a
      sink's name. */
  lemma PinMapValues(pins: seq<Pin>, n: Net, clockPort: string, key: Key)
    requires NetInRange(n, |pins|)
    requires key in PinMapOf(pins, n.source, n.sinks, clockPort)
    ensures NetNode(pins, n, clockPort, PinMapOf(pins, n.source, n.sinks, clockPort)[key], 0, 0)
  {
    PinMapNames(pins, n.source, n.sinks, clockPort, key);
  }

  /** What routing a net guarantees: the counter never goes down; every
      segment joins two node names of the net, its Steiner points numbered
      from the counter's value before the net on; and, for a tree, no
      segment joins a name to itself, the segments are no longer than the
      tree and there is at most one per branch. */
  lemma RoutedFacts(pins: seq<Pin>, n: Net, t: Tree, clockPort: string, cnt: nat)
    requires NetInRange(n, |pins|) && (|n.sinks| >= 2 ==> ValidTree(t))
    ensures var r := Routed(pins, n, t, clockPort, cnt);
      && cnt <= r.1
      && (forall s :: s in r.0 ==>
        NetNode(pins, n, clockPort, s.end1, cnt, r.1) && NetNode(pins, n, clockPort, s.end2, cnt, r.1))
      && (|n.sinks| >= 2 ==>
        && (forall s :: s in r.0 ==> s.end1 != s.end2)
        && TotalLength(r.0) <= NetLength(pins, n, t)
        && |r.0| <= BranchCount(t))
  {
    var r := Routed(pins, n, t, clockPort, cnt);
    if |n.sinks| == 1 {
      assert r.0[0].end2 == pins[n.sinks[0]].name;
    } else if |n.sinks| >= 2 {
      var pm0 := PinMapOf(pins, n.source, n.sinks, clockPort);
      var m := BranchCount(t);
      var st := RouteFrom(pins, n.sinks, t, m, pm0, cnt);
      RouteFromNames(pins, n.sinks, t, m, pm0, cnt);
      RouteFromSegments(pins, n.sinks, t, m, pm0, cnt);
      forall s | s in r.0
        ensures NetNode(pins, n, clockPort, s.end1, cnt, r.1) && NetNode(pins, n, clockPort, s.end2, cnt, r.1)
      {
        var i :| 0 <= i < |st.segs| && st.segs[i] == s;
        SegmentsAreEdges(pins, n.sinks, t, m, pm0, cnt, i);
        var j :| 0 <= j < m && SegmentOf(pins, n.sinks, t, j, st.pm, s);
        MapNameIsNode(pins, n, clockPort, st.pm, cnt, st.cnt, BranchKey(t.branch[j]));
        if s.end2 == Lookup(st.pm, BranchKey(t.branch[t.branch[j].n])) {
          MapNameIsNode(pins, n, clockPort, st.pm, cnt, st.cnt, BranchKey(t.branch[t.branch[j].n]));
        } else {
          var k :| 0 <= k < |n.sinks| && pins[n.sinks[k]].name == s.end2 && PinKey(pins[n.sinks[k]]) == BranchKey(t.branch[j]);
          assert NetNode(pins, n, clockPort, s.end2, cnt, r.1);
        }
      }
    }
  }

  /** A name that the final map of a net's routing holds at a named
      location is a node name of the net. */
  lemma MapNameIsNode(pins: seq<Pin>, n: Net, clockPort: string, pm: map<Key, string>, lo: nat, hi: nat, key: Key)
    requires NetInRange(n, |pins|)
    requires NamesFrom(pm, PinMapOf(pins, n.source, n.sinks, clockPort), lo, hi) && key in pm
    ensures NetNode(pins, n, clockPort, Lookup(pm, key), lo, hi)
  {
    var pm0 := PinMapOf(pins, n.source, n.sinks, clockPort);
    if key in pm0 && pm[key] == pm0[key] {
      PinMapValues(pins, n, clockPort, key);
    }
  }

  /** The Steiner point counter before net `k` is routed: it starts at 0
      and each net's routing carries it on. */
  function CounterBefore(pins: seq<Pin>, nets: seq<Net>, trees: seq<Tree>, clockPort: string, k: nat): nat
    requires NetsInRange(nets, |pins|) && TreesFor(nets, trees) && k <= |nets|
  {
    if k == 0 then 0
    else Routed(pins, nets[k - 1], trees[k - 1], clockPort, CounterBefore(pins, nets, trees, clockPort, k - 1)).1
  }

  /** The Steiner point counter never goes down from one net to a later
      one. */
  lemma {:induction false} CounterGrows(pins: seq<Pin>, nets: seq<Net>, trees: seq<Tree>, clockPort: string, k1: nat, k2: nat)
    requires NetsInRange(nets, |pins|) && TreesFor(nets, trees) && k1 <= k2 <= |nets|
    ensures CounterBefore(pins, nets, trees, clockPort, k1) <= CounterBefore(pins, nets, trees, clockPort, k2)
    decreases k2
  {
    if k1 < k2 {
      CounterGrows(pins, nets, trees, clockPort, k1, k2 - 1);
      RoutedFacts(pins, nets[k2 - 1], trees[k2 - 1], clockPort, CounterBefore(pins, nets, trees, clockPort, k2 - 1));
    }
  }

  /** Two different nets never share a Steiner point name: the names net `k`
      may use lie between the counter before it and the counter after it,
      and those ranges do not overlap for different nets. */
  lemma SpNamesDisjoint(pins: seq<Pin>, nets: seq<Net>, trees: seq<Tree>, clockPort: string, k1: nat, k2: nat, name: string)
    requires NetsInRange(nets, |pins|) && TreesFor(nets, trees) && k1 < k2 < |nets|
    ensures !(SpInRange(name, CounterBefore(pins, nets, trees, clockPort, k1), CounterBefore(pins, nets, trees, clockPort, k1 + 1))
           && SpInRange(name, CounterBefore(pins, nets, trees, clockPort, k2), CounterBefore(pins, nets, trees, clockPort, k2 + 1)))
  {
    CounterGrows(pins, nets, trees, clockPort, k1 + 1, k2);
    SpRangesApart(CounterBefore(pins, nets, trees, clockPort, k1), CounterBefore(pins, nets, trees, clockPort, k1 + 1),
                  CounterBefore(pins, nets, trees, clockPort, k2), CounterBefore(pins, nets, trees, clockPort, k2 + 1), name);
  }

  /** Steiner point names from two number ranges, the first ending where
      or before the second starts, never coincide. */
  lemma SpRangesApart(lo1: nat, hi1: nat, lo2: nat, hi2: nat, name: string)
    requires hi1 <= lo2
    ensures !(SpInRange(name, lo1, hi1) && SpInRange(name, lo2, hi2))
  {
    if SpInRange(name, lo1, hi1) && SpInRange(name, lo2, hi2) {
      var a: nat :| lo1 < a <= hi1 && name == SpName(a);
      var b: nat :| lo2 < b <= hi2 && name == SpName(b);
      SpNameInjective(a, b);
    }
  }

  /** Different numbers give different Steiner point names. */
  lemma SpNameInjective(a: nat, b: nat)
    ensures SpName(a) == SpName(b) ==> a == b
  {
    if SpName(a) == SpName(b) {
      assert SpName(a)[3..] == NatToString(a) && SpName(b)[3..] == NatToString(b);
      NatToStringInjective(a, b);
    }
  }

  /** Routes one net: a net with one sink gets its two-pin segment, a net
      with more gets its tree's segments, Steiner points numbered on from
      `cnt`; `longest` is the tree's longest edge length. */
  method RouteNet(pins: seq<Pin>, n: Net, t: Tree, clockPort: string, cnt: nat) returns (segs: seq<Segment>, cnt': nat, longest: real)
    requires NetInRange(n, |pins|) && (|n.sinks| >= 2 ==> ValidTree(t))
    ensures (segs, cnt') == Routed(pins, n, t, clockPort, cnt)
    ensures |n.sinks| >= 2 ==> longest == TreeLongest(t, BranchCount(t))
  {
    segs, cnt', longest := [], cnt, 0.0;
    if |n.sinks| == 1 {
      var seg := TwoPinSegment(pins, n, clockPort);
      segs := [seg];
    } else if |n.sinks| >= 2 {
      var added, pm;
      segs, added, longest, cnt', pm := MultiPinSegments(pins, n, t, clockPort, cnt);
    }
  }

  /** The net named "iccad_clk" with a tree whose longest edge is `v`. */
  predicate ClockLongest(nets: seq<Net>, trees: seq<Tree>, k: nat, v: real)
    requires TreesFor(nets, trees) && k < |nets|
  {
    nets[k].name == "iccad_clk" && |nets[k].sinks| >= 2 && v == TreeLongest(trees[k], BranchCount(trees[k]))
  }

  /** The state of the net loop after the first `k` nets: only the segment
      lists changed, each of the first `k` holds that net's routing with the
      counter as it stood before it, the counter stands where routing those
      nets left it, the lengths are summed, and the clock maximum is 0 or the
      longest edge of a clock net seen so far, and no such edge is longer. */
  predicate BuiltUpTo(pins: seq<Pin>, nets: seq<Net>, trees: seq<Tree>, clockPort: string, k: nat,
                      r: seq<Net>, total: real, spCount: nat, maxClk: real)
    requires NetsInRange(nets, |pins|) && TreesFor(nets, trees) && k <= |nets|
  {
    && |r| == |nets|
    && (forall m :: 0 <= m < |nets| ==> r[m] == nets[m].(wireSegs := r[m].wireSegs))
    && (forall m :: 0 <= m < k ==>
      r[m].wireSegs == Routed(pins, nets[m], trees[m], clockPort, CounterBefore(pins, nets, trees, clockPort, m)).0)
    && spCount == CounterBefore(pins, nets, trees, clockPort, k)
    && total == SumNetLength(pins, nets[..k], trees[..k])
    && (maxClk == 0.0 || exists m :: 0 <= m < k && ClockLongest(nets, trees, m, maxClk))
    && (forall m :: 0 <= m < k && nets[m].name == "iccad_clk" && |nets[m].sinks| >= 2 ==>
      TreeLongest(trees[m], BranchCount(trees[m])) <= maxClk)
  }

  /** One iteration of the net loop: net `k` is routed, its tree length added
      to the total and, for the clock net, its longest edge to the maximum. */
  method BuildStep(pins: seq<Pin>, nets: seq<Net>, trees: seq<Tree>, clockPort: string, k: nat,
                   r0: seq<Net>, total0: real, spCount0: nat, maxClk0: real)
    returns (r: seq<Net>, total: real, spCount: nat, maxClk: real)
    requires NetsInRange(nets, |pins|) && TreesFor(nets, trees) && k < |nets|
    requires BuiltUpTo(pins, nets, trees, clockPort, k, r0, total0, spCount0, maxClk0)
    ensures BuiltUpTo(pins, nets, trees, clockPort, k + 1, r, total, spCount, maxClk)
  {
    var n := nets[k];
    var segs, longest;
    segs, spCount, longest := RouteNet(pins, n, trees[k], clockPort, spCount0);
    maxClk := maxClk0;
    if |n.sinks| >= 2 && n.name == "iccad_clk" {
      maxClk := Max(maxClk, longest);
      assert maxClk == maxClk0 || ClockLongest(nets, trees, k, maxClk);
    }
    SumNetLengthStep(pins, nets, trees, k);
    total := total0 + NetLength(pins, n, trees[k]);
    r := r0[k := n.(wireSegs := segs)];
  }

  /** Routes every net: each net's segment list is rebuilt from scratch, the
      routed lengths are summed and converted to microns, Steiner points are
      numbered by one counter over all nets, and the longest edge of the net
      literally named "iccad_clk" is tracked. */
  method BuildSteiner(pins: seq<Pin>, nets: seq<Net>, trees: seq<Tree>, clockPort: string, dist2Microns: nat)
    returns (r: seq<Net>, totalStWL: real, spCount: nat, maxClkStWL: real)
    requires NetsInRange(nets, |pins|) && TreesFor(nets, trees) && dist2Microns > 0
    ensures |r| == |nets|
    ensures forall k :: 0 <= k < |nets| ==> r[k] == nets[k].(wireSegs := r[k].wireSegs)
    ensures forall k :: 0 <= k < |nets| ==>
      r[k].wireSegs == Routed(pins, nets[k], trees[k], clockPort, CounterBefore(pins, nets, trees, clockPort, k)).0
    ensures spCount == CounterBefore(pins, nets, trees, clockPort, |nets|)
    ensures totalStWL == SumNetLength(pins, nets, trees) / (dist2Microns as real)
    ensures maxClkStWL == 0.0 || exists k :: 0 <= k < |nets| && ClockLongest(nets, trees, k, maxClkStWL)
    ensures forall k :: 0 <= k < |nets| && nets[k].name == "iccad_clk" && |nets[k].sinks| >= 2 ==>
      TreeLongest(trees[k], BranchCount(trees[k])) <= maxClkStWL
  {
    r := nets;
    var total := 0.0;
    spCount, maxClkStWL := 0, 0.0;
    BuiltNone(pins, nets, trees, clockPort);
    var k := 0;
    while k < |nets|
      invariant 0 <= k <= |nets|
      invariant BuiltUpTo(pins, nets, trees, clockPort, k, r, total, spCount, maxClkStWL)
    {
      r, total, spCount, maxClkStWL := BuildStep(pins, nets, trees, clockPort, k, r, total, spCount, maxClkStWL);
      k := k + 1;
    }
    BuiltAll(pins, nets, trees, clockPort, r, total, spCount, maxClkStWL);
    totalStWL := total / (dist2Microns as real);
  }

  lemma BuiltNone(pins: seq<Pin>, nets: seq<Net>, trees: seq<Tree>, clockPort: string)
    requires NetsInRange(nets, |pins|) && TreesFor(nets, trees)
    ensures BuiltUpTo(pins, nets, trees, clockPort, 0, nets, 0.0, 0, 0.0)
  {
  }

  lemma BuiltAll(pins: seq<Pin>, nets: seq<Net>, trees: seq<Tree>, clockPort: string,
                 r: seq<Net>, total: real, spCount: nat, maxClk: real)
    requires NetsInRange(nets, |pins|) && TreesFor(nets, trees)
    requires BuiltUpTo(pins, nets, trees, clockPort, |nets|, r, total, spCount, maxClk)
    ensures |r| == |nets|
    ensures forall k :: 0 <= k < |nets| ==> r[k] == nets[k].(wireSegs := r[k].wireSegs)
    ensures forall k :: 0 <= k < |nets| ==>
      r[k].wireSegs == Routed(pins, nets[k], trees[k], clockPort, CounterBefore(pins, nets, trees, clockPort, k)).0
    ensures spCount == CounterBefore(pins, nets, trees, clockPort, |nets|)
    ensures total == SumNetLength(pins, nets, trees)
    ensures maxClk == 0.0 || exists k :: 0 <= k < |nets| && ClockLongest(nets, trees, k, maxClk)
    ensures forall k :: 0 <= k < |nets| && nets[k].name == "iccad_clk" && |nets[k].sinks| >= 2 ==>
      TreeLongest(trees[k], BranchCount(trees[k])) <= maxClk
  {
    assert nets[..|nets|] == nets && trees[..|trees|] == trees;
  }
}
