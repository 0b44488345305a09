/**
 * Lowering a build onto the ground (`AdjustOriginToGround` in src/Paste.cpp): a grid of samples over
 * the turned footprint decides the height at which the lowest piece comes to rest.
 */
module Terrain {
  import opened Wrappers
  import opened Geometry
  import opened Model
  import opened PasteSpec

  /** Ground height found by a trace at a world position, where it hits. */
  type Ground = (real, real) -> Option<real>

  /** The height of the terrain itself, where there is any. */
  type Relief = (real, real) -> Option<real>

  /** A trace starts this far above the given height and ends this far below it. */
  const UP: real := 3000.0

  const DOWN: real := 20000.0

  predicate Reaches(z: real, height: real) {
    z - DOWN <= height <= z + UP
  }

  /** What the traces from height `z` find of the terrain. */
  function Trace(relief: Relief, z: real): Ground {
    (x: real, y: real) => var h := relief(x, y); if h.Some? && Reaches(z, h.value) then h else None
  }

  datatype GroundMode = Average | Highest | Lowest

  /** Where the source's running minima and maxima start. */
  const FAR: real := 1000000000.0

  const GRID: nat := 7

  function Sixths(size: real, k: nat): real {
    size * (k as real / 6.0)
  }

  function GridPoint(bp: Blueprint, opts: PasteOptions, gx: nat, gy: nat): (real, real) {
    var r := RotateAroundZ(Vec(Sixths(bp.sizeX, gx), Sixths(bp.sizeY, gy), 0.0), opts.turn);
    (opts.origin.x + r.x, opts.origin.y + r.y)
  }

  /** Where sample number `i` is taken: row by row over the footprint. */
  function SamplePoint(bp: Blueprint, opts: PasteOptions, i: nat): (real, real) {
    GridPoint(bp, opts, i / GRID, i % GRID)
  }

  lemma GridIndex(gx: nat, gy: nat)
    requires gx < 7 && gy < 7
    ensures (gx * GRID + gy) / GRID == gx && (gx * GRID + gy) % GRID == gy && gx * GRID + gy == 7 * gx + gy
  {
  }

  lemma SixthsOf(size: real, k: nat, f: real)
    requires 6.0 * f == size * k as real
    ensures f == Sixths(size, k)
  {
  }

  lemma GridPointIs(bp: Blueprint, opts: PasteOptions, gx: nat, gy: nat, fx: real, fy: real)
    requires fx == Sixths(bp.sizeX, gx) && fy == Sixths(bp.sizeY, gy)
    ensures var r := RotateAroundZ(Vec(fx, fy, 0.0), opts.turn);
            GridPoint(bp, opts, gx, gy) == (opts.origin.x + r.x, opts.origin.y + r.y)
  {
    hide Sixths;
  }

  lemma SampleAt(bp: Blueprint, opts: PasteOptions, gx: nat, gy: nat)
    requires gx < 7 && gy < 7
    ensures SamplePoint(bp, opts, gx * GRID + gy) == GridPoint(bp, opts, gx, gy)
  {
    hide GridPoint;
    GridIndex(gx, gy);
  }

  /**
   * The samples are the seven by seven points of the footprint, a sixth of its sides apart and turned with
   * it, from the origin corner to the opposite one.
   */
  lemma SamplesSpanFootprint(bp: Blueprint, opts: PasteOptions, gx: nat, gy: nat, fx: real, fy: real)
    requires gx < 7 && gy < 7
    requires 6.0 * fx == bp.sizeX * gx as real && 6.0 * fy == bp.sizeY * gy as real
    ensures var c, s := opts.turn.c, opts.turn.s;
            SamplePoint(bp, opts, 7 * gx + gy)
            == (opts.origin.x + (fx * c - fy * s), opts.origin.y + (fx * s + fy * c))
  {
    hide RotateAroundZ, SamplePoint, GridPoint, Sixths;
    SixthsOf(bp.sizeX, gx, fx);
    SixthsOf(bp.sizeY, gy, fy);
    TurnedBy(opts, fx, fy);
    GridIndex(gx, gy);
    SampleAt(bp, opts, gx, gy);
    GridPointIs(bp, opts, gx, gy, fx, fy);
  }

  lemma TurnedBy(opts: PasteOptions, px: real, py: real)
    ensures var r := RotateAroundZ(Vec(px, py, 0.0), opts.turn);
            r.x == px * opts.turn.c - py * opts.turn.s && r.y == px * opts.turn.s + py * opts.turn.c
  {
  }

  /** The heights hit among the first `n` samples. */
  function Heights(bp: Blueprint, opts: PasteOptions, ground: Ground, n: nat): seq<real> {
    if n == 0 then []
    else
      var at := SamplePoint(bp, opts, n - 1);
      var g := ground(at.0, at.1);
      if g.Some? then Heights(bp, opts, ground, n - 1) + [g.value] else Heights(bp, opts, ground, n - 1)
  }

  function LowestOf(s: seq<real>): real {
    if s == [] then FAR else Min(LowestOf(s[..|s| - 1]), s[|s| - 1])
  }

  function HighestOf(s: seq<real>): real {
    if s == [] then -FAR else Max(HighestOf(s[..|s| - 1]), s[|s| - 1])
  }

  function SumOf(s: seq<real>): real {
    if s == [] then 0.0 else SumOf(s[..|s| - 1]) + s[|s| - 1]
  }

  function LowestPiece(pieces: seq<Piece>): real
    requires pieces != []
  {
    if |pieces| == 1 then pieces[0].z else Min(LowestPiece(pieces[..|pieces| - 1]), pieces[|pieces| - 1].z)
  }

  function Target(heights: seq<real>, mode: GroundMode): real
    requires heights != []
  {
    match mode
    case Average => SumOf(heights) / |heights| as real
    case Highest => HighestOf(heights)
    case Lowest => LowestOf(heights)
  }

  /** All the heights the traces from height `z` find. */
  function Seen(bp: Blueprint, opts: PasteOptions, relief: Relief, z: real): seq<real> {
    Heights(bp, opts, Trace(relief, z), GRID * GRID)
  }

  /** The options with the origin's height adjusted; with nothing to go by they stay as they are. */
  function Adjusted(bp: Blueprint, opts: PasteOptions, snap: bool, mode: GroundMode, relief: Relief): PasteOptions {
    var heights := Seen(bp, opts, relief, opts.origin.z);
    if !snap || bp.pieces == [] || heights == [] then opts
    else opts.(origin := opts.origin.(z := Target(heights, mode) - LowestPiece(bp.pieces)))
  }

  /** `snap` is the option, and false as well while the engine has no world. */
  method AdjustOriginToGround(bp: Blueprint, opts: PasteOptions, snap: bool, mode: GroundMode, relief: Relief)
    returns (out: PasteOptions, spread: real)
    ensures out == Adjusted(bp, opts, snap, mode, relief)
    ensures var heights := Seen(bp, opts, relief, opts.origin.z);
            spread == if !snap || bp.pieces == [] || heights == [] then 0.0 else HighestOf(heights) - LowestOf(heights)
  {
    hide RotateAroundZ, GridPoint, SamplePoint, Heights, LowestOf, HighestOf, SumOf, LowestPiece, Trace;
    out, spread := opts, 0.0;
    if !snap || bp.pieces == [] { return; }
    var minZ := FindLowestPiece(bp.pieces);
    var ground := Trace(relief, opts.origin.z);
    ghost var heights: seq<real> := [];
    var lo, hi, sum, hits := FAR, -FAR, 0.0, 0;
    NoHeights(bp, opts, ground);
    for gx := 0 to GRID
      invariant heights == Heights(bp, opts, ground, gx * GRID)
      invariant hits == |heights| && lo == LowestOf(heights) && hi == HighestOf(heights) && sum == SumOf(heights)
    {
      for gy := 0 to GRID
        invariant heights == Heights(bp, opts, ground, gx * GRID + gy)
        invariant hits == |heights| && lo == LowestOf(heights) && hi == HighestOf(heights) && sum == SumOf(heights)
      {
        var fx, fy := bp.sizeX * (gx as real / 6.0), bp.sizeY * (gy as real / 6.0);
        var r := RotateAroundZ(Vec(fx, fy, 0.0), opts.turn);
        var g := ground(opts.origin.x + r.x, opts.origin.y + r.y);
        SampleAt(bp, opts, gx, gy);
        GridPointIs(bp, opts, gx, gy, fx, fy);
        NextHeight(bp, opts, ground, gx * GRID + gy);
        if g.Some? {
          OneMoreHeight(heights, g.value);
          lo := Min(lo, g.value);
          hi := Max(hi, g.value);
          sum := sum + g.value;
          hits := hits + 1;
          heights := heights + [g.value];
        }
      }
    }
    if hits == 0 { return; }
    spread := hi - lo;
    var target := sum / hits as real;
    if mode == Highest { target := hi; } else if mode == Lowest { target := lo; }
    out := opts.(origin := opts.origin.(z := target - minZ));
  }

  method FindLowestPiece(pieces: seq<Piece>) returns (minZ: real)
    requires pieces != []
    ensures minZ == LowestPiece(pieces)
  {
    minZ := pieces[0].z;
    for i := 1 to |pieces|
      invariant minZ == LowestPiece(pieces[..i])
    {
      assert pieces[..i + 1][..i] == pieces[..i];
      minZ := Min(minZ, pieces[i].z);
    }
    assert pieces[..|pieces|] == pieces;
  }

  lemma NoHeights(bp: Blueprint, opts: PasteOptions, ground: Ground)
    ensures Heights(bp, opts, ground, 0) == [] && LowestOf([]) == FAR && HighestOf([]) == -FAR && SumOf([]) == 0.0
  {
  }

  lemma NextHeight(bp: Blueprint, opts: PasteOptions, ground: Ground, n: nat)
    ensures var at := SamplePoint(bp, opts, n);
            var g := ground(at.0, at.1);
            Heights(bp, opts, ground, n + 1)
            == if g.Some? then Heights(bp, opts, ground, n) + [g.value] else Heights(bp, opts, ground, n)
  {
  }

  lemma OneMoreHeight(s: seq<real>, x: real)
    ensures LowestOf(s + [x]) == Min(LowestOf(s), x) && HighestOf(s + [x]) == Max(HighestOf(s), x)
    ensures SumOf(s + [x]) == SumOf(s) + x
  {
    assert (s + [x])[..|s|] == s;
  }

  // ----- what the adjustment achieves -----

  /** The running sentinels do not get in the way. */
  predicate AreModest(heights: seq<real>) {
    forall i :: 0 <= i < |heights| ==> -1000000000.0 <= heights[i] <= 1000000000.0
  }

  lemma {:induction false} ExtremesBound(s: seq<real>)
    requires AreModest(s)
    ensures forall i :: 0 <= i < |s| ==> LowestOf(s) <= s[i] <= HighestOf(s)
    ensures s != [] ==> LowestOf(s) in s && HighestOf(s) in s
  {
    if s != [] {
      ExtremesBound(s[..|s| - 1]);
      if |s| == 1 { assert s[..0] == []; }
    }
  }

  function Times(n: real, x: real): real {
    n * x
  }

  lemma {:induction false} SumIsBetween(s: seq<real>)
    ensures Times(|s| as real, LowestOf(s)) <= SumOf(s) <= Times(|s| as real, HighestOf(s))
  {
    hide Times;
    if s == [] {
      TimesNothing(FAR);
      TimesNothing(-FAR);
    } else {
      var n, rest := |s| - 1, s[..|s| - 1];
      SumIsBetween(rest);
      SumStep(n as real, LowestOf(rest), HighestOf(rest), SumOf(rest), s[n]);
    }
  }

  lemma TimesNothing(x: real)
    ensures Times(0.0, x) == 0.0
  {
  }

  lemma SumStep(n: real, lo: real, hi: real, sum: real, x: real)
    requires n >= 0.0 && Times(n, lo) <= sum <= Times(n, hi)
    ensures Times(n + 1.0, Min(lo, x)) <= sum + x <= Times(n + 1.0, Max(hi, x))
  {
    hide Times;
    ScaleUp(n, Min(lo, x), lo);
    ScaleUp(n, hi, Max(hi, x));
    OneMoreTime(n, Min(lo, x));
    OneMoreTime(n, Max(hi, x));
  }

  lemma ScaleUp(n: real, a: real, b: real)
    requires n >= 0.0 && a <= b
    ensures Times(n, a) <= Times(n, b)
  {
  }

  lemma OneMoreTime(n: real, x: real)
    ensures Times(n + 1.0, x) == Times(n, x) + x
  {
  }

  lemma {:induction false} LowestPieceBounds(pieces: seq<Piece>)
    requires pieces != []
    ensures forall i :: 0 <= i < |pieces| ==> LowestPiece(pieces) <= pieces[i].z
    ensures exists i :: 0 <= i < |pieces| && pieces[i].z == LowestPiece(pieces)
  {
    if |pieces| == 1 {
      assert pieces[0].z == LowestPiece(pieces);
    } else {
      var n := |pieces| - 1;
      LowestPieceBounds(pieces[..n]);
      if LowestPiece(pieces) == pieces[n].z { assert pieces[n].z == LowestPiece(pieces); }
    }
  }

  /** The lowest piece comes to rest at the target height and no piece below it. */
  lemma LowestPieceRests(bp: Blueprint, opts: PasteOptions, mode: GroundMode, relief: Relief)
    requires bp.pieces != [] && Seen(bp, opts, relief, opts.origin.z) != []
    ensures var out, target := Adjusted(bp, opts, true, mode, relief),
                               Target(Seen(bp, opts, relief, opts.origin.z), mode);
            (forall i :: 0 <= i < |bp.pieces| ==> Destination(out, bp.pieces[i]).z >= target) &&
            exists i :: 0 <= i < |bp.pieces| && Destination(out, bp.pieces[i]).z == target
  {
    LowestPieceBounds(bp.pieces);
  }

  /** The target is between the extremes; the highest mode buries nothing sampled, the lowest leaves no gap. */
  lemma TargetIsAmongHeights(heights: seq<real>, mode: GroundMode)
    requires heights != [] && forall i :: 0 <= i < |heights| ==> -1000000000.0 <= heights[i] <= 1000000000.0
    ensures LowestOf(heights) <= Target(heights, mode) <= HighestOf(heights)
    ensures mode == Highest ==> forall i :: 0 <= i < |heights| ==> heights[i] <= Target(heights, mode)
    ensures mode == Lowest ==> forall i :: 0 <= i < |heights| ==> heights[i] >= Target(heights, mode)
    ensures mode != Average ==> Target(heights, mode) in heights
  {
    hide Times, LowestOf, HighestOf, SumOf;
    ExtremesBound(heights);
    SumIsBetween(heights);
    if mode == Average { MeanIsBetween(|heights| as real, LowestOf(heights), HighestOf(heights), SumOf(heights)); }
  }

  lemma MeanIsBetween(n: real, lo: real, hi: real, sum: real)
    requires n > 0.0 && Times(n, lo) <= sum <= Times(n, hi)
    ensures lo <= sum / n <= hi
  {
    var mean := sum / n;
    assert n * mean == sum;
    if mean < lo { ScaleStrictly(n, mean, lo); }
    if mean > hi { ScaleStrictly(n, hi, mean); }
  }

  lemma ScaleStrictly(n: real, a: real, b: real)
    requires n > 0.0 && a < b
    ensures n * a < n * b
  {
  }

  // ----- adjusting twice -----

  /** The samples, among the first `n`, that traces from height `z` find and traces from `other` do not. */
  function OnlyFrom(bp: Blueprint, opts: PasteOptions, relief: Relief, z: real, other: real, n: nat): seq<real> {
    if n == 0 then []
    else
      var at := SamplePoint(bp, opts, n - 1);
      var h := relief(at.0, at.1);
      if h.Some? && Reaches(z, h.value) && !Reaches(other, h.value)
      then OnlyFrom(bp, opts, relief, z, other, n - 1) + [h.value]
      else OnlyFrom(bp, opts, relief, z, other, n - 1)
  }

  /** By how much, taken together, the heights exceed the target. */
  function Excess(heights: seq<real>, target: real): real {
    if heights == [] then 0.0 else Excess(heights[..|heights| - 1], target) + heights[|heights| - 1] - target
  }

  lemma ExcessOneMore(heights: seq<real>, h: real, target: real)
    ensures Excess(heights + [h], target) == Excess(heights, target) + h - target
  {
    assert (heights + [h])[..|heights|] == heights;
  }

  lemma {:induction false} ExcessIsSum(heights: seq<real>, target: real)
    ensures Excess(heights, target) == SumOf(heights) - Times(|heights| as real, target)
  {
    hide Times;
    if heights == [] {
      TimesNothing(target);
    } else {
      var n := |heights| - 1;
      ExcessIsSum(heights[..n], target);
      OneMoreTime(n as real, target);
      assert |heights| as real == n as real + 1.0;
    }
  }

  lemma MeanIffNoExcess(heights: seq<real>, target: real)
    requires heights != []
    ensures SumOf(heights) / |heights| as real == target <==> Excess(heights, target) == 0.0
  {
    hide SumOf, Excess, Times;
    ExcessIsSum(heights, target);
    MeanIffTimes(|heights| as real, SumOf(heights), target);
  }

  lemma MeanIffTimes(n: real, sum: real, target: real)
    requires n > 0.0
    ensures sum / n == target <==> sum == Times(n, target)
  {
    var mean := sum / n;
    assert n * mean == sum;
    if mean < target { ScaleStrictly(n, mean, target); }
    if mean > target { ScaleStrictly(n, target, mean); }
  }

  lemma NextOnly(bp: Blueprint, opts: PasteOptions, relief: Relief, z: real, other: real, n: nat, h: Option<real>)
    requires h == relief(SamplePoint(bp, opts, n).0, SamplePoint(bp, opts, n).1)
    ensures OnlyFrom(bp, opts, relief, z, other, n + 1)
            == if h.Some? && Reaches(z, h.value) && !Reaches(other, h.value)
               then OnlyFrom(bp, opts, relief, z, other, n) + [h.value] else OnlyFrom(bp, opts, relief, z, other, n)
    ensures Heights(bp, opts, Trace(relief, z), n + 1)
            == if h.Some? && Reaches(z, h.value)
               then Heights(bp, opts, Trace(relief, z), n) + [h.value] else Heights(bp, opts, Trace(relief, z), n)
  {
    hide SamplePoint;
  }

  lemma NothingMoved(bp: Blueprint, opts: PasteOptions, relief: Relief, z: real, other: real)
    ensures Heights(bp, opts, Trace(relief, z), 0) == Heights(bp, opts, Trace(relief, other), 0)
    ensures OnlyFrom(bp, opts, relief, z, other, 0) == OnlyFrom(bp, opts, relief, other, z, 0)
  {
  }

  /** Moving the traces exchanges the heights they lose for those they gain. */
  lemma {:induction false} MovedExcess(bp: Blueprint, opts: PasteOptions, relief: Relief, z: real, other: real,
                                       target: real, n: nat)
    ensures Excess(Heights(bp, opts, Trace(relief, other), n), target)
            == Excess(Heights(bp, opts, Trace(relief, z), n), target)
               + Excess(OnlyFrom(bp, opts, relief, other, z, n), target)
               - Excess(OnlyFrom(bp, opts, relief, z, other, n), target)
  {
    hide SamplePoint, Reaches, Heights, OnlyFrom, Trace, Excess;
    if n == 0 {
      NothingMoved(bp, opts, relief, z, other);
    } else {
      MovedExcess(bp, opts, relief, z, other, target, n - 1);
      var h := relief(SamplePoint(bp, opts, n - 1).0, SamplePoint(bp, opts, n - 1).1);
      NextOnly(bp, opts, relief, z, other, n - 1, h);
      NextOnly(bp, opts, relief, other, z, n - 1, h);
      if h.Some? {
        ExcessOneMore(Heights(bp, opts, Trace(relief, other), n - 1), h.value, target);
        ExcessOneMore(Heights(bp, opts, Trace(relief, z), n - 1), h.value, target);
        ExcessOneMore(OnlyFrom(bp, opts, relief, other, z, n - 1), h.value, target);
        ExcessOneMore(OnlyFrom(bp, opts, relief, z, other, n - 1), h.value, target);
      }
    }
  }

  /** What is seen after a move: what was seen before and is still in reach, and what was gained. */
  lemma {:induction false} SeenAfterMove(bp: Blueprint, opts: PasteOptions, relief: Relief, z: real, other: real,
                                         h: real, n: nat)
    ensures h in Heights(bp, opts, Trace(relief, other), n) <==>
            (h in Heights(bp, opts, Trace(relief, z), n) && Reaches(other, h)) ||
            h in OnlyFrom(bp, opts, relief, other, z, n)
  {
    hide SamplePoint, Reaches;
    if n > 0 { SeenAfterMove(bp, opts, relief, z, other, h, n - 1); }
  }

  predicate LiesAt(bp: Blueprint, opts: PasteOptions, relief: Relief, i: nat, h: real) {
    relief(SamplePoint(bp, opts, i).0, SamplePoint(bp, opts, i).1) == Some(h)
  }

  /** A height is seen exactly when a sample's ground lies at it, no more than 20000 below or 3000 above the start. */
  lemma {:induction false} SeenIff(bp: Blueprint, opts: PasteOptions, relief: Relief, z: real, h: real, n: nat)
    ensures h in Heights(bp, opts, Trace(relief, z), n) <==>
            z - 20000.0 <= h <= z + 3000.0 &&
            exists i: nat :: i < n && LiesAt(bp, opts, relief, i, h)
  {
    hide SamplePoint;
    if n > 0 {
      SeenIff(bp, opts, relief, z, h, n - 1);
      SeenNext(bp, opts, relief, z, h, n - 1);
    }
  }

  lemma TraceFinds(relief: Relief, z: real, x: real, y: real)
    ensures forall h :: Trace(relief, z)(x, y) == Some(h) <==> relief(x, y) == Some(h) && z - 20000.0 <= h <= z + 3000.0
  {
  }

  lemma SeenNext(bp: Blueprint, opts: PasteOptions, relief: Relief, z: real, h: real, n: nat)
    ensures h in Heights(bp, opts, Trace(relief, z), n + 1) <==>
            h in Heights(bp, opts, Trace(relief, z), n) ||
            (z - 20000.0 <= h <= z + 3000.0 && LiesAt(bp, opts, relief, n, h))
  {
    var at, before := SamplePoint(bp, opts, n), Heights(bp, opts, Trace(relief, z), n);
    NextHeight(bp, opts, Trace(relief, z), n);
    TraceFinds(relief, z, at.0, at.1);
    var g := Trace(relief, z)(at.0, at.1);
    if g.Some? { assert h in before + [g.value] <==> h in before || h == g.value; }
  }

  lemma {:induction false} HighestIsReached(s: seq<real>)
    ensures HighestOf(s) >= -1000000000.0 && (HighestOf(s) == -1000000000.0 || HighestOf(s) in s) &&
            forall h :: h in s ==> h <= HighestOf(s)
  {
    if s != [] {
      HighestIsReached(s[..|s| - 1]);
      assert s == s[..|s| - 1] + [s[|s| - 1]];
    }
  }

  lemma {:induction false} LowestIsReached(s: seq<real>)
    ensures LowestOf(s) <= 1000000000.0 && (LowestOf(s) == 1000000000.0 || LowestOf(s) in s) &&
            forall h :: h in s ==> h >= LowestOf(s)
  {
    if s != [] {
      LowestIsReached(s[..|s| - 1]);
      assert s == s[..|s| - 1] + [s[|s| - 1]];
    }
  }

  lemma ExtremesAre(s: seq<real>, t: real)
    ensures HighestOf(s) == t <==>
            t >= -1000000000.0 && (t == -1000000000.0 || t in s) && forall h :: h in s ==> h <= t
    ensures LowestOf(s) == t <==>
            t <= 1000000000.0 && (t == 1000000000.0 || t in s) && forall h :: h in s ==> h >= t
  {
    hide HighestOf, LowestOf;
    HighestIsReached(s);
    LowestIsReached(s);
  }

  /**
   * When a second adjustment changes nothing: either its traces find nothing at all, or the
   * heights they newly reach and those they no longer reach exceed the target by the same total
   * (average), or no height newly reached lies beyond the target, and the traces, which now start
   * as far below the target as the lowest piece is above the origin, still reach the target
   * (highest and lowest).
   */
  ghost predicate IsSettled(bp: Blueprint, opts: PasteOptions, mode: GroundMode, relief: Relief)
    requires bp.pieces != [] && Seen(bp, opts, relief, opts.origin.z) != []
  {
    var t, minZ := Target(Seen(bp, opts, relief, opts.origin.z), mode), LowestPiece(bp.pieces);
    var gained := OnlyFrom(bp, opts, relief, t - minZ, opts.origin.z, GRID * GRID);
    var lost := OnlyFrom(bp, opts, relief, opts.origin.z, t - minZ, GRID * GRID);
    Seen(bp, opts, relief, t - minZ) == [] ||
    match mode
    case Average => Excess(gained, t) == Excess(lost, t)
    case Highest => (t == -1000000000.0 || -20000.0 <= minZ <= 3000.0) && forall h :: h in gained ==> h <= t
    case Lowest => (t == 1000000000.0 || -20000.0 <= minZ <= 3000.0) && forall h :: h in gained ==> h >= t
  }

  /** Exactly when adjusting an adjusted origin changes nothing. */
  lemma AdjustTwiceIff(bp: Blueprint, opts: PasteOptions, snap: bool, mode: GroundMode, relief: Relief)
    ensures var once := Adjusted(bp, opts, snap, mode, relief);
            Adjusted(bp, once, snap, mode, relief) == once <==>
            !snap || bp.pieces == [] || Seen(bp, opts, relief, opts.origin.z) == [] || IsSettled(bp, opts, mode, relief)
  {
    hide Heights, Target, LowestPiece, IsSettled, Trace;
    if snap && bp.pieces != [] && Seen(bp, opts, relief, opts.origin.z) != [] {
      var once := Adjusted(bp, opts, snap, mode, relief);
      HeightsIgnoreOrigin(bp, opts, once, Trace(relief, once.origin.z), GRID * GRID);
      SecondTargetIff(bp, opts, mode, relief);
    }
  }

  lemma {:induction false} SameHeights(bp: Blueprint, opts: PasteOptions, relief: Relief, z: real, other: real, n: nat)
    requires OnlyFrom(bp, opts, relief, z, other, n) == [] && OnlyFrom(bp, opts, relief, other, z, n) == []
    ensures Heights(bp, opts, Trace(relief, z), n) == Heights(bp, opts, Trace(relief, other), n)
  {
    hide SamplePoint, Reaches, Heights, OnlyFrom, Trace;
    if n == 0 {
      NothingMoved(bp, opts, relief, z, other);
    } else {
      var h := relief(SamplePoint(bp, opts, n - 1).0, SamplePoint(bp, opts, n - 1).1);
      NextOnly(bp, opts, relief, z, other, n - 1, h);
      NextOnly(bp, opts, relief, other, z, n - 1, h);
      SameHeights(bp, opts, relief, z, other, n - 1);
    }
  }

  /** While the traces from the adjusted height reach the same samples, adjusting again changes nothing. */
  lemma AdjustIsIdempotent(bp: Blueprint, opts: PasteOptions, snap: bool, mode: GroundMode, relief: Relief)
    requires var z := Adjusted(bp, opts, snap, mode, relief).origin.z;
             OnlyFrom(bp, opts, relief, z, opts.origin.z, GRID * GRID) == [] &&
             OnlyFrom(bp, opts, relief, opts.origin.z, z, GRID * GRID) == []
    ensures var once := Adjusted(bp, opts, snap, mode, relief); Adjusted(bp, once, snap, mode, relief) == once
  {
    hide SamplePoint, Heights, OnlyFrom, Trace, Target, LowestPiece;
    var once := Adjusted(bp, opts, snap, mode, relief);
    SameHeights(bp, opts, relief, opts.origin.z, once.origin.z, GRID * GRID);
    HeightsIgnoreOrigin(bp, opts, once, Trace(relief, once.origin.z), GRID * GRID);
  }

  lemma SecondTargetIff(bp: Blueprint, opts: PasteOptions, mode: GroundMode, relief: Relief)
    requires bp.pieces != [] && Seen(bp, opts, relief, opts.origin.z) != []
    ensures var t := Target(Seen(bp, opts, relief, opts.origin.z), mode);
            var again := Seen(bp, opts, relief, t - LowestPiece(bp.pieces));
            (again == [] || Target(again, mode) == t) <==> IsSettled(bp, opts, mode, relief)
  {
    hide Heights, LowestPiece, Trace, SumOf, HighestOf, LowestOf, OnlyFrom, Excess;
    var z0, first := opts.origin.z, Seen(bp, opts, relief, opts.origin.z);
    var t := Target(first, mode);
    var z1 := t - LowestPiece(bp.pieces);
    var again := Seen(bp, opts, relief, z1);
    if again != [] {
      match mode
      case Average =>
        MovedExcess(bp, opts, relief, z0, z1, t, GRID * GRID);
        MeanIffNoExcess(first, t);
        MeanIffNoExcess(again, t);
      case Highest =>
        ExtremesAre(first, t);
        ExtremesAre(again, t);
        forall h: real { SeenAfterMove(bp, opts, relief, z0, z1, h, GRID * GRID); }
        GainedIsNew(bp, opts, relief, z1, z0, t, GRID * GRID);
      case Lowest =>
        ExtremesAre(first, t);
        ExtremesAre(again, t);
        forall h: real { SeenAfterMove(bp, opts, relief, z0, z1, h, GRID * GRID); }
        GainedIsNew(bp, opts, relief, z1, z0, t, GRID * GRID);
    }
  }

  lemma {:induction false} GainedIsNew(bp: Blueprint, opts: PasteOptions, relief: Relief, z: real, other: real,
                                       h: real, n: nat)
    ensures h in OnlyFrom(bp, opts, relief, z, other, n) ==> h !in Heights(bp, opts, Trace(relief, other), n)
    ensures h in Heights(bp, opts, Trace(relief, other), n) ==> Reaches(other, h)
    ensures h in OnlyFrom(bp, opts, relief, z, other, n) ==> Reaches(z, h) && !Reaches(other, h)
  {
    hide SamplePoint, Reaches;
    if n > 0 { GainedIsNew(bp, opts, relief, z, other, h, n - 1); }
  }

  lemma {:induction false} HeightsIgnoreOrigin(bp: Blueprint, opts: PasteOptions, other: PasteOptions, ground: Ground,
                                               n: nat)
    requires other == opts.(origin := opts.origin.(z := other.origin.z))
    ensures Heights(bp, other, ground, n) == Heights(bp, opts, ground, n)
  {
    hide SamplePoint;
    if n > 0 {
      HeightsIgnoreOrigin(bp, opts, other, ground, n - 1);
      SamePoint(bp, opts, other, n - 1);
    }
  }

  lemma SamePoint(bp: Blueprint, opts: PasteOptions, other: PasteOptions, i: nat)
    requires other == opts.(origin := opts.origin.(z := other.origin.z))
    ensures SamplePoint(bp, other, i) == SamplePoint(bp, opts, i)
  {
  }

  // ----- a second adjustment that moves the build again -----

  /** Level ground with a spire under the origin corner. */
  function Spire(x: real, y: real): Option<real> {
    Some(if x == 0.0 && y == 0.0 then 8000.0 else 0.0)
  }

  const SPIRE_BUILD := DEFAULT_BLUEPRINT.(sizeX := 6.0, sizeY := 6.0, classes := ["wall"], pieces := [DEFAULT_PIECE])

  const SPIRE_OPTIONS := PasteOptions(Vec(0.0, 0.0, 6000.0), 0.0, NO_TURN, 0, 0, false, 0.0, 25)

  lemma SpirePoint(i: nat)
    ensures var at := SamplePoint(SPIRE_BUILD, SPIRE_OPTIONS, i);
            (at.0 == 0.0 && at.1 == 0.0) <==> i == 0
  {
    hide RotateAroundZ;
    SixSixths(i / GRID);
    SixSixths(i % GRID);
    NoTurnKeeps(Vec((i / GRID) as real, (i % GRID) as real, 0.0));
    assert i == GRID * (i / GRID) + i % GRID;
  }

  lemma SixSixths(k: nat)
    ensures 6.0 * (k as real / 6.0) == k as real
  {
  }

  lemma SpireTrace(i: nat, z: real)
    requires -3000.0 <= z <= 20000.0
    ensures var at := SamplePoint(SPIRE_BUILD, SPIRE_OPTIONS, i);
            Trace(Spire, z)(at.0, at.1) == if i > 0 then Some(0.0) else if z >= 5000.0 then Some(8000.0) else None
  {
    hide SamplePoint;
    SpirePoint(i);
    var at := SamplePoint(SPIRE_BUILD, SPIRE_OPTIONS, i);
    var h := Spire(at.0, at.1);
    assert h == Some(if i == 0 then 8000.0 else 0.0);
    assert Trace(Spire, z)(at.0, at.1) == if Reaches(z, h.value) then h else None;
  }

  /** High traces find the spire and the ground around it, traces from nearer the ground only the latter. */
  lemma {:induction false} SpireSeen(z: real, n: nat)
    requires n > 0 && -3000.0 <= z <= 20000.0
    ensures var heights := Heights(SPIRE_BUILD, SPIRE_OPTIONS, Trace(Spire, z), n);
            if z >= 5000.0 then |heights| == n && SumOf(heights) == 8000.0
            else |heights| == n - 1 && SumOf(heights) == 0.0
  {
    hide SamplePoint, Trace, Heights, SumOf;
    var ground := Trace(Spire, z);
    SpireTrace(n - 1, z);
    NextHeight(SPIRE_BUILD, SPIRE_OPTIONS, ground, n - 1);
    NoHeights(SPIRE_BUILD, SPIRE_OPTIONS, ground);
    var before := Heights(SPIRE_BUILD, SPIRE_OPTIONS, ground, n - 1);
    if n > 1 { SpireSeen(z, n - 1); }
    OneMoreHeight(before, 0.0);
    OneMoreHeight(before, 8000.0);
  }

  /** The average settles the build below the spire's reach; adjusting again drops it to the ground. */
  lemma SpireMovesAgain()
    ensures var once := Adjusted(SPIRE_BUILD, SPIRE_OPTIONS, true, Average, Spire);
            once.origin.z == 8000.0 / 49.0 && Adjusted(SPIRE_BUILD, once, true, Average, Spire).origin.z == 0.0
    ensures !IsSettled(SPIRE_BUILD, SPIRE_OPTIONS, Average, Spire)
  {
    hide Heights, Trace, SumOf, IsSettled;
    var once := Adjusted(SPIRE_BUILD, SPIRE_OPTIONS, true, Average, Spire);
    SpireSeen(6000.0, GRID * GRID);
    assert once.origin.z == 8000.0 / 49.0;
    SpireSeen(once.origin.z, GRID * GRID);
    HeightsIgnoreOrigin(SPIRE_BUILD, SPIRE_OPTIONS, once, Trace(Spire, once.origin.z), GRID * GRID);
    AdjustTwiceIff(SPIRE_BUILD, SPIRE_OPTIONS, true, Average, Spire);
  }
}
