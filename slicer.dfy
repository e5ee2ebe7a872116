/** Splitting long wire segments. A segment longer than the threshold becomes
    ceil(len / threshold) equal pieces chained through the synthetic nodes
    `<end1>_<end2>_<j>`: the segment's own slot keeps the first piece, and the
    remaining pieces are appended to the end of the net's list. */
module Slicer {
  import opened Model

  lemma PieceFits(len: real, t: real, c: int)
    requires t > 0.0 && c as real >= len / t && c > 0
    ensures len / (c as real) <= t
  {
    var cr := c as real;
    assert len <= cr * t by {
      assert len == (len / t) * t;
      assert (len / t) * t <= cr * t;
    }
    assert len / cr <= (cr * t) / cr;
  }

  /** How many pieces a segment longer than `t` is cut into. */
  function SliceCount(s: Segment, t: nat): (c: nat)
    requires t > 0 && s.len > t as real
    ensures c >= 2
    ensures s.len / (c as real) <= t as real
  {
    var c := Ceil(s.len / t as real);
    assert s.len / t as real > 1.0;
    PieceFits(s.len, t as real, c);
    c
  }

  /** The j-th synthetic node between the ends of a sliced segment. */
  function SliceName(e1: string, e2: string, j: nat): string
  {
    e1 + "_" + e2 + "_" + NatToString(j)
  }

  /** What replaces one segment: itself if it is short enough, otherwise a chain
      of equal pieces from `end1` through the synthetic nodes to `end2`. */
  function Pieces(s: Segment, t: nat): (ps: seq<Segment>)
    requires t > 0
    ensures 1 <= |ps|
  {
    if s.len <= t as real then [s]
    else
      var c := SliceCount(s, t);
      var names := SliceNames(s.end1, s.end2, c);
      seq(c, k requires 0 <= k < c => Piece(s, names, k))
  }

  /** The synthetic names `<end1>_<end2>_0` up to `<end1>_<end2>_<n - 1>`. */
  function SliceNames(e1: string, e2: string, n: nat): (ns: seq<string>)
    ensures |ns| == n
  {
    if n == 0 then [] else SliceNames(e1, e2, n - 1) + [SliceName(e1, e2, n - 1)]
  }

  lemma {:induction false} SliceNameAt(e1: string, e2: string, n: nat, j: nat)
    requires j < n
    ensures SliceNames(e1, e2, n)[j] == SliceName(e1, e2, j)
    decreases n
  {
    if j < n - 1 {
      SliceNameAt(e1, e2, n - 1, j);
    }
  }

  /** The `k`-th of the `|names|` pieces of `s`: piece `k` runs from name
      `k - 1` to name `k`, the first starting at `end1` and the last ending
      at `end2`. */
  function Piece(s: Segment, names: seq<string>, k: nat): Segment
    requires k < |names|
  {
    Segment(if k == 0 then s.end1 else names[k - 1],
            if k == |names| - 1 then s.end2 else names[k],
            s.len / (|names| as real))
  }

  /** A short segment is its own only piece; a long one is cut into
      `SliceCount` pieces of equal length, none longer than the threshold. */
  lemma PiecesLengths(s: Segment, t: nat)
    requires t > 0
    ensures var ps := Pieces(s, t);
      && (s.len <= t as real ==> ps == [s])
      && (s.len > t as real ==>
        && |ps| == SliceCount(s, t)
        && (forall k :: 0 <= k < |ps| ==> ps[k].len == s.len / (|ps| as real) <= t as real))
  {
    if s.len > t as real {
      var ps := Pieces(s, t);
      forall k | 0 <= k < |ps|
        ensures ps[k].len == s.len / (|ps| as real)
      {
        assert ps[k] == Piece(s, SliceNames(s.end1, s.end2, |ps|), k);
      }
    }
  }

  /** The shape of the chain: it runs from `end1` to `end2` and consecutive
      pieces meet at the synthetic node `<end1>_<end2>_<k>`. */
  lemma PiecesChain(s: Segment, t: nat)
    requires t > 0 && s.len > t as real
    ensures var ps := Pieces(s, t);
      && |ps| == SliceCount(s, t)
      && ps[0].end1 == s.end1
      && ps[|ps| - 1].end2 == s.end2
      && (forall k :: 0 <= k < |ps| - 1 ==> ps[k].end2 == ps[k + 1].end1 == SliceName(s.end1, s.end2, k))
  {
    var c := SliceCount(s, t);
    var names := SliceNames(s.end1, s.end2, c);
    var ps := Pieces(s, t);
    assert ps[0] == Piece(s, names, 0);
    assert ps[c - 1] == Piece(s, names, c - 1);
    forall k | 0 <= k < c - 1
      ensures ps[k].end2 == ps[k + 1].end1 == SliceName(s.end1, s.end2, k)
    {
      assert ps[k] == Piece(s, names, k) && ps[k + 1] == Piece(s, names, k + 1);
      SliceNameAt(s.end1, s.end2, c, k);
    }
  }

  /** The first piece of every segment, each in its original slot. */
  function Heads(segs: seq<Segment>, t: nat): (hs: seq<Segment>)
    requires t > 0
    ensures |hs| == |segs|
  {
    seq(|segs|, i requires 0 <= i < |segs| => Pieces(segs[i], t)[0])
  }

  /** The remaining pieces of every sliced segment, in segment order. */
  function Tails(segs: seq<Segment>, t: nat): seq<Segment>
    requires t > 0
  {
    if |segs| == 0 then [] else Tails(segs[..|segs| - 1], t) + Pieces(segs[|segs| - 1], t)[1..]
  }

  /** A net's segment list after slicing. */
  function Sliced(segs: seq<Segment>, t: nat): seq<Segment>
    requires t > 0
  {
    Heads(segs, t) + Tails(segs, t)
  }

  /** Every synthetic name generated for the segment is shorter than the limit. */
  predicate NamesFit(s: Segment, t: nat, maxName: nat)
    requires t > 0
  {
    s.len <= t as real ||
    forall j :: 0 <= j < SliceCount(s, t) ==> |SliceName(s.end1, s.end2, j)| < maxName
  }

  /** The pieces appended for a sliced segment after `j - 1` steps, before the
      last one's far end is rewritten. */
  function RawChain(s: Segment, names: seq<string>, j: nat): (rs: seq<Segment>)
    requires 1 <= j <= |names|
    ensures |rs| == j - 1
  {
    seq(j - 1, k requires 0 <= k < j - 1 => Segment(names[k], names[k + 1], s.len / (|names| as real)))
  }

  lemma SliceStep(segs: seq<Segment>, t: nat, i: nat)
    requires t > 0 && i < |segs|
    ensures Heads(segs[..i + 1], t) == Heads(segs[..i], t) + [Pieces(segs[i], t)[0]]
    ensures Tails(segs[..i + 1], t) == Tails(segs[..i], t) + Pieces(segs[i], t)[1..]
  {
    assert segs[..i + 1][..i] == segs[..i];
  }

  lemma ReplaceInConcat(h: seq<Segment>, x: Segment, rest: seq<Segment>, tl: seq<Segment>, y: Segment, more: seq<Segment>)
    ensures (h + ([x] + rest) + tl)[|h| := y] + more == (h + [y]) + rest + (tl + more)
  {
  }

  /** The list part-way through slicing: slots before `i` hold their first
      pieces, the rest are untouched, and the pieces of the slots before `i`
      follow at the end. */
  function Partial(segs: seq<Segment>, t: nat, i: nat): seq<Segment>
    requires t > 0 && i <= |segs|
  {
    Heads(segs[..i], t) + segs[i..] + Tails(segs[..i], t)
  }

  lemma PartialStart(segs: seq<Segment>, t: nat)
    requires t > 0
    ensures Partial(segs, t, 0) == segs
  {
    assert segs[..0] == [];
  }

  lemma PartialEnd(segs: seq<Segment>, t: nat)
    requires t > 0
    ensures Partial(segs, t, |segs|) == Sliced(segs, t)
  {
    assert segs[..|segs|] == segs;
  }

  /** Slicing slot `i` advances the intermediate list by one segment. */
  lemma PartialAt(segs: seq<Segment>, t: nat, i: nat)
    requires t > 0 && i < |segs|
    ensures Partial(segs, t, i)[i] == segs[i]
  {
    var h := Heads(segs[..i], t);
    assert |h| == i;
    assert (h + segs[i..])[i] == segs[i];
  }

  /** Slot `i` of `r` replaced by its first piece, the other pieces appended. */
  function Step(r: seq<Segment>, i: nat, t: nat): (r': seq<Segment>)
    requires t > 0 && i < |r|
  {
    r[i := Pieces(r[i], t)[0]] + Pieces(r[i], t)[1..]
  }

  lemma PartialSplit(segs: seq<Segment>, t: nat, i: nat)
    requires t > 0 && i < |segs|
    ensures Partial(segs, t, i) == Heads(segs[..i], t) + ([segs[i]] + segs[i + 1..]) + Tails(segs[..i], t)
  {
    assert segs[i..] == [segs[i]] + segs[i + 1..];
  }

  lemma PartialNext(segs: seq<Segment>, t: nat, i: nat)
    requires t > 0 && i < |segs|
    ensures var ps := Pieces(segs[i], t);
      Partial(segs, t, i + 1) == (Heads(segs[..i], t) + [ps[0]]) + segs[i + 1..] + (Tails(segs[..i], t) + ps[1..])
  {
    SliceStep(segs, t, i);
  }

  lemma PartialStep(segs: seq<Segment>, t: nat, i: nat)
    requires t > 0 && i < |segs|
    ensures |Partial(segs, t, i)| > i
    ensures Step(Partial(segs, t, i), i, t) == Partial(segs, t, i + 1)
  {
    PartialAt(segs, t, i);
    PartialSplit(segs, t, i);
    PartialNext(segs, t, i);
    var ps := Pieces(segs[i], t);
    ReplaceInConcat(Heads(segs[..i], t), segs[i], segs[i + 1..], Tails(segs[..i], t), ps[0], ps[1..]);
  }

  /** A short segment is its own only piece. */
  lemma ShortUnchanged(r: seq<Segment>, i: nat, t: nat)
    requires t > 0 && i < |r| && r[i].len <= t as real
    ensures Step(r, i, t) == r
  {
    assert Pieces(r[i], t) == [r[i]];
    assert r[i := r[i]] + [] == r;
  }

  lemma RawChainClosed(s: Segment, t: nat)
    requires t > 0 && s.len > t as real
    ensures var c := SliceCount(s, t); var raw := RawChain(s, SliceNames(s.end1, s.end2, c), c);
      raw[|raw| - 1 := raw[|raw| - 1].(end2 := s.end2)] == Pieces(s, t)[1..]
  {
    var c := SliceCount(s, t);
    var names := SliceNames(s.end1, s.end2, c);
    var raw := RawChain(s, names, c);
    var ps := Pieces(s, t);
    var tail := ps[1..];
    var closed := raw[c - 2 := raw[c - 2].(end2 := s.end2)];
    assert |ps| == c && |tail| == c - 1 == |closed|;
    forall k | 0 <= k < c - 1
      ensures closed[k] == tail[k]
    {
      assert tail[k] == ps[k + 1] == Piece(s, names, k + 1);
    }
  }

  /** One more synthetic piece extends the raw chain by one segment. */
  lemma RawChainGrow(s: Segment, names: seq<string>, j: nat)
    requires 1 <= j < |names|
    ensures RawChain(s, names, j + 1) ==
      RawChain(s, names, j) + [Segment(names[j - 1], names[j], s.len / (|names| as real))]
  {
  }

  lemma UpdateLast(a: seq<Segment>, b: seq<Segment>, x: Segment)
    requires |b| > 0
    ensures (a + b)[|a + b| - 1 := x] == a + b[|b| - 1 := x]
  {
  }

  /** Closing the raw chain at `end2` gives exactly the slicing step. */
  lemma SliceClosed(r0: seq<Segment>, i: nat, t: nat, r: seq<Segment>)
    requires t > 0 && i < |r0| && r0[i].len > t as real
    requires r == r0[i := Pieces(r0[i], t)[0]] + RawChain(r0[i], SliceNames(r0[i].end1, r0[i].end2, SliceCount(r0[i], t)), SliceCount(r0[i], t))
    ensures |r| > 0 && r[|r| - 1 := r[|r| - 1].(end2 := r0[i].end2)] == Step(r0, i, t)
  {
    var s := r0[i];
    var c := SliceCount(s, t);
    var raw := RawChain(s, SliceNames(s.end1, s.end2, c), c);
    assert |raw| == c - 1 > 0;
    RawChainClosed(s, t);
    UpdateLast(r0[i := Pieces(s, t)[0]], raw, raw[|raw| - 1].(end2 := s.end2));
  }

  /** Slices the segment at slot `i` of `r`: the slot gets the first piece and
      the other pieces are appended. Fails if a synthetic name is too long. */
  method SliceAt(r0: seq<Segment>, i: nat, t: nat, maxName: nat) returns (ok: bool, r: seq<Segment>)
    requires t > 0 && i < |r0| && r0[i].len > t as real
    ensures ok <==> NamesFit(r0[i], t, maxName)
    ensures ok ==> r == Step(r0, i, t)
  {
    var s := r0[i];
    var e1, e2 := s.end1, s.end2;
    var c: nat := Ceil(s.len / t as real);
    assert c == SliceCount(s, t);
    var piece := s.len / (c as real);
    var prev := SliceName(e1, e2, 0);
    if |prev| >= maxName {
      return false, r0;
    }
    ghost var names := SliceNames(e1, e2, c);
    var chain: seq<Segment> := [];
    var j := 1;
    while j < c
      invariant 1 <= j <= c
      invariant chain == RawChain(s, names, j)
      invariant forall m :: 0 <= m < j ==> |SliceName(e1, e2, m)| < maxName
      invariant prev == SliceName(e1, e2, j - 1)
    {
      var cur := SliceName(e1, e2, j);
      if |cur| >= maxName {
        return false, r0;
      }
      SliceNameAt(e1, e2, c, j - 1);
      SliceNameAt(e1, e2, c, j);
      RawChainGrow(s, names, j);
      chain := chain + [Segment(prev, cur, piece)];
      prev := cur;
      j := j + 1;
    }
    r := r0[i := Segment(e1, SliceName(e1, e2, 0), piece)] + chain;
    SliceNameAt(e1, e2, c, 0);
    assert Pieces(s, t)[0] == Piece(s, names, 0) == Segment(e1, SliceName(e1, e2, 0), piece);
    SliceClosed(r0, i, t, r);
    r := r[|r| - 1 := r[|r| - 1].(end2 := e2)];
    ok := true;
  }

  /** One iteration of the slicing loop: slot `i` is sliced if it is too long. */
  method SliceSlot(segs: seq<Segment>, t: nat, maxName: nat, i: nat, r0: seq<Segment>) returns (ok: bool, r: seq<Segment>)
    requires t > 0 && i < |segs| && r0 == Partial(segs, t, i)
    ensures ok <==> NamesFit(segs[i], t, maxName)
    ensures ok ==> r == Partial(segs, t, i + 1)
  {
    PartialAt(segs, t, i);
    PartialStep(segs, t, i);
    if r0[i].len > t as real {
      ok, r := SliceAt(r0, i, t, maxName);
    } else {
      ShortUnchanged(r0, i, t);
      ok, r := true, r0;
    }
  }

  /** Rewrites one net's segment list in place: each of the original segments
      longer than `t` is sliced; appended pieces are not looked at again. Fails
      (the source's assertion) as soon as a synthetic name is too long. */
  method SliceSegments(segs: seq<Segment>, t: nat, maxName: nat) returns (ok: bool, r: seq<Segment>)
    requires t > 0
    ensures ok <==> forall i :: 0 <= i < |segs| ==> NamesFit(segs[i], t, maxName)
    ensures ok ==> r == Sliced(segs, t)
  {
    r := segs;
    PartialStart(segs, t);
    var i := 0;
    while i < |segs|
      invariant 0 <= i <= |segs|
      invariant r == Partial(segs, t, i)
      invariant forall k :: 0 <= k < i ==> NamesFit(segs[k], t, maxName)
    {
      ok, r := SliceSlot(segs, t, maxName, i, r);
      if !ok {
        return;
      }
      i := i + 1;
    }
    PartialEnd(segs, t);
    ok := true;
  }

  /** The nets after slicing every net's segment list. */
  function SlicedNets(nets: seq<Net>, t: nat): (r: seq<Net>)
    requires t > 0
    ensures |r| == |nets|
  {
    seq(|nets|, k requires 0 <= k < |nets| => nets[k].(wireSegs := Sliced(nets[k].wireSegs, t)))
  }

  predicate AllNamesFit(nets: seq<Net>, t: nat, maxName: nat)
    requires t > 0
  {
    forall k, i :: 0 <= k < |nets| && 0 <= i < |nets[k].wireSegs| ==> NamesFit(nets[k].wireSegs[i], t, maxName)
  }

  /** Slices every net in turn; stops at the first name that is too long. */
  method SliceNets(nets: seq<Net>, t: nat, maxName: nat) returns (ok: bool, r: seq<Net>)
    requires t > 0
    ensures ok <==> AllNamesFit(nets, t, maxName)
    ensures ok ==> r == SlicedNets(nets, t)
  {
    r := nets;
    var k := 0;
    while k < |nets|
      invariant 0 <= k <= |nets| == |r|
      invariant forall m :: 0 <= m < k ==> r[m] == nets[m].(wireSegs := Sliced(nets[m].wireSegs, t))
      invariant forall m :: k <= m < |nets| ==> r[m] == nets[m]
      invariant forall m, i :: 0 <= m < k && 0 <= i < |nets[m].wireSegs| ==> NamesFit(nets[m].wireSegs[i], t, maxName)
    {
      var segs;
      ok, segs := SliceSegments(nets[k].wireSegs, t, maxName);
      if !ok {
        return;
      }
      r := r[k := nets[k].(wireSegs := segs)];
      k := k + 1;
    }
    ok := true;
  }

  /** Equal pieces add up to the length they were cut from. */
  lemma {:induction false} EqualPiecesTotal(ps: seq<Segment>, piece: real, n: nat)
    requires n <= |ps|
    requires forall k :: 0 <= k < |ps| ==> ps[k].len == piece
    ensures TotalLength(ps[..n]) == (n as real) * piece
  {
    if n > 0 {
      assert ps[..n][..n - 1] == ps[..n - 1];
      EqualPiecesTotal(ps, piece, n - 1);
    }
  }

  lemma EqualSplitTotal(ps: seq<Segment>, len: real, c: nat)
    requires |ps| == c > 0
    requires forall k :: 0 <= k < |ps| ==> ps[k].len == len / (c as real)
    ensures TotalLength(ps) == len
  {
    EqualPiecesTotal(ps, len / (c as real), c);
    assert ps[..c] == ps;
  }

  /** The pieces of a segment add up to its length. */
  lemma PiecesTotal(s: Segment, t: nat)
    requires t > 0
    ensures TotalLength(Pieces(s, t)) == s.len
  {
    var ps := Pieces(s, t);
    if s.len <= t as real {
      assert ps[..0] == [];
    } else {
      var c := SliceCount(s, t);
      var piece := s.len / (c as real);
      assert |ps| == c;
      assert forall k :: 0 <= k < |ps| ==> ps[k].len == piece;
      EqualSplitTotal(ps, s.len, c);
    }
  }

  /** Slicing keeps the total wire length of a net. */
  lemma {:induction false} SlicedKeepsLength(segs: seq<Segment>, t: nat)
    requires t > 0
    ensures TotalLength(Sliced(segs, t)) == TotalLength(segs)
  {
    HeadsTailsLength(segs, t);
    TotalLengthAppend(Heads(segs, t), Tails(segs, t));
  }

  lemma {:induction false} HeadsTailsLength(segs: seq<Segment>, t: nat)
    requires t > 0
    ensures TotalLength(Heads(segs, t)) + TotalLength(Tails(segs, t)) == TotalLength(segs)
    decreases |segs|
  {
    if |segs| > 0 {
      var n := |segs| - 1;
      var init := segs[..n];
      var ps := Pieces(segs[n], t);
      HeadsTailsLength(init, t);
      assert segs[..n + 1] == segs;
      SliceStep(segs, t, n);
      TotalLengthAppend(Heads(init, t), [ps[0]]);
      TotalLengthAppend(Tails(init, t), ps[1..]);
      assert ps == [ps[0]] + ps[1..];
      TotalLengthAppend([ps[0]], ps[1..]);
      PiecesTotal(segs[n], t);
      assert TotalLength([ps[0]]) == ps[0].len by {
        assert [ps[0]][..0] == [];
      }
    }
  }

  /** After slicing no segment is longer than the threshold. */
  lemma SlicedWithinThreshold(segs: seq<Segment>, t: nat)
    requires t > 0
    ensures forall k :: 0 <= k < |Sliced(segs, t)| ==> Sliced(segs, t)[k].len <= t as real
  {
    forall k | 0 <= k < |segs|
      ensures Heads(segs, t)[k].len <= t as real
    {
      PiecesLengths(segs[k], t);
    }
    TailsWithinThreshold(segs, t);
  }

  lemma {:induction false} TailsWithinThreshold(segs: seq<Segment>, t: nat)
    requires t > 0
    ensures forall k :: 0 <= k < |Tails(segs, t)| ==> Tails(segs, t)[k].len <= t as real
    decreases |segs|
  {
    if |segs| > 0 {
      var n := |segs| - 1;
      TailsWithinThreshold(segs[..n], t);
      PiecesLengths(segs[n], t);
    }
  }

  /** A segment's own slot keeps its first end; a short segment is untouched;
      a long one is cut into `SliceCount` pieces. */
  lemma SlotShape(segs: seq<Segment>, t: nat, k: nat)
    requires t > 0 && k < |segs|
    ensures Sliced(segs, t)[k].end1 == segs[k].end1
    ensures segs[k].len <= t as real ==> Sliced(segs, t)[k] == segs[k]
    ensures segs[k].len > t as real ==>
      Sliced(segs, t)[k] == Segment(segs[k].end1, SliceName(segs[k].end1, segs[k].end2, 0), segs[k].len / (SliceCount(segs[k], t) as real))
  {
    var s := segs[k];
    var h := Heads(segs, t);
    assert Sliced(segs, t)[k] == h[k] == Pieces(s, t)[0];
    if s.len > t as real {
      var c := SliceCount(s, t);
      var names := SliceNames(s.end1, s.end2, c);
      assert Pieces(s, t)[0] == Piece(s, names, 0);
      SliceNameAt(s.end1, s.end2, c, 0);
    }
  }

  /** A list with no segment above the threshold is left as it is, so slicing
      twice is the same as slicing once. */
  lemma {:induction false} SliceShortIsIdentity(segs: seq<Segment>, t: nat)
    requires t > 0
    requires forall k :: 0 <= k < |segs| ==> segs[k].len <= t as real
    ensures Sliced(segs, t) == segs
    decreases |segs|
  {
    if |segs| > 0 {
      var n := |segs| - 1;
      SliceShortIsIdentity(segs[..n], t);
      PiecesLengths(segs[n], t);
      SliceStep(segs, t, n);
      assert segs[..n + 1] == segs;
      assert segs == segs[..n] + [segs[n]];
    }
  }

  lemma SliceIdempotent(segs: seq<Segment>, t: nat)
    requires t > 0
    ensures Sliced(Sliced(segs, t), t) == Sliced(segs, t)
  {
    SlicedWithinThreshold(segs, t);
    SliceShortIsIdentity(Sliced(segs, t), t);
  }

  /** How many segments slicing appends for the given list: one fewer than
      the pieces of every segment longer than the threshold. */
  function Extra(segs: seq<Segment>, t: nat): nat
    requires t > 0
  {
    if |segs| == 0 then 0
    else
      var s := segs[|segs| - 1];
      Extra(segs[..|segs| - 1], t) + (if s.len > t as real then SliceCount(s, t) - 1 else 0)
  }

  /** A net gains exactly `slice_cnt - 1` segments for every segment it
      slices. */
  lemma {:induction false} SlicedCount(segs: seq<Segment>, t: nat)
    requires t > 0
    ensures |Sliced(segs, t)| == |segs| + Extra(segs, t)
  {
    TailsCount(segs, t);
  }

  lemma {:induction false} TailsCount(segs: seq<Segment>, t: nat)
    requires t > 0
    ensures |Tails(segs, t)| == Extra(segs, t)
    decreases |segs|
  {
    if |segs| > 0 {
      TailsCount(segs[..|segs| - 1], t);
      PiecesLengths(segs[|segs| - 1], t);
    }
  }
}
