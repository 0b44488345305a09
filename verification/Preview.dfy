/**
 * The dry run (src/Preview.cpp): the footprint box of the turned build, and the burial check that
 * samples the ground once per column through a cache keyed by one 64-bit word.
 */
module Preview {
  import opened Arithmetic
  import opened Wrappers
  import opened Geometry
  import opened Model
  import opened PasteSpec
  import opened Terrain
  import opened Undo

  // ----- the footprint box -----

  function Corner(bp: Blueprint, i: nat): Vec
    requires i < 4
  {
    if i == 0 then Vec(0.0, 0.0, 0.0)
    else if i == 1 then Vec(bp.sizeX, 0.0, 0.0)
    else if i == 2 then Vec(bp.sizeX, bp.sizeY, 0.0)
    else Vec(0.0, bp.sizeY, 0.0)
  }

  function WorldCorner(bp: Blueprint, opts: PasteOptions, i: nat): Vec
    requires i < 4
  {
    var r := RotateAroundZ(Corner(bp, i), opts.turn);
    Vec(opts.origin.x + r.x, opts.origin.y + r.y, opts.origin.z)
  }

  /** The box `lo`..`hi` reaches every one of the first `n` corners, and is no larger than it must. */
  predicate IsFootprint(bp: Blueprint, opts: PasteOptions, n: nat, lo: Vec, hi: Vec)
    requires n <= 4
  {
    lo.z == opts.origin.z && hi.z == opts.origin.z + bp.sizeZ &&
    (forall i :: 0 <= i < n ==> var c := WorldCorner(bp, opts, i); lo.x <= c.x <= hi.x && lo.y <= c.y <= hi.y) &&
    (lo.x == FAR || exists i :: 0 <= i < n && lo.x == WorldCorner(bp, opts, i).x) &&
    (lo.y == FAR || exists i :: 0 <= i < n && lo.y == WorldCorner(bp, opts, i).y) &&
    (hi.x == -FAR || exists i :: 0 <= i < n && hi.x == WorldCorner(bp, opts, i).x) &&
    (hi.y == -FAR || exists i :: 0 <= i < n && hi.y == WorldCorner(bp, opts, i).y)
  }

  method Footprint(bp: Blueprint, opts: PasteOptions) returns (lo: Vec, hi: Vec)
    ensures IsFootprint(bp, opts, 4, lo, hi)
  {
    hide RotateAroundZ;
    lo := Vec(FAR, FAR, opts.origin.z);
    hi := Vec(-FAR, -FAR, opts.origin.z + bp.sizeZ);
    for i := 0 to 4
      invariant IsFootprint(bp, opts, i, lo, hi)
    {
      var c := WorldCorner(bp, opts, i);
      lo := lo.(x := Min(lo.x, c.x), y := Min(lo.y, c.y));
      hi := hi.(x := Max(hi.x, c.x), y := Max(hi.y, c.y));
    }
  }

  /** A coordinate after turning: a sum of two products, taken apart only in `MixBetween`. */
  function Mix(x: real, y: real, f: real, g: real): real {
    x * f + y * g
  }

  function Neg(a: real): real {
    -a
  }

  lemma NegativeFactor(a: real, b: real)
    ensures a * Neg(b) == -(a * b)
  {
  }

  lemma TurnedParts(v: Vec, t: Turn)
    ensures RotateAroundZ(v, t) == Vec(Mix(v.x, v.y, t.c, Neg(t.s)), Mix(v.x, v.y, t.s, t.c), v.z)
  {
    NegativeFactor(v.y, t.s);
  }

  lemma Halves(a: real, b: real, lo: real, hi: real, ca: real, cb: real)
    requires Min(0.0, ca) <= a <= Max(0.0, ca) && Min(0.0, cb) <= b <= Max(0.0, cb)
    requires lo <= 0.0 <= hi && lo <= ca <= hi && lo <= ca + cb <= hi && lo <= cb <= hi
    ensures lo <= a + b <= hi
  {
  }

  lemma MixAtCorners(sizeP: real, sizeQ: real, f: real, g: real)
    ensures Mix(0.0, 0.0, f, g) == 0.0 && Mix(sizeP, 0.0, f, g) == sizeP * f && Mix(0.0, sizeQ, f, g) == sizeQ * g
    ensures Mix(sizeP, sizeQ, f, g) == sizeP * f + sizeQ * g
  {
  }

  /** A sum of two scaled coordinates stays between the sums taken at the four corners. */
  lemma MixBetween(p: real, sizeP: real, q: real, sizeQ: real, f: real, g: real, lo: real, hi: real)
    requires 0.0 <= p <= sizeP && 0.0 <= q <= sizeQ
    requires lo <= Mix(0.0, 0.0, f, g) <= hi && lo <= Mix(sizeP, 0.0, f, g) <= hi
    requires lo <= Mix(sizeP, sizeQ, f, g) <= hi && lo <= Mix(0.0, sizeQ, f, g) <= hi
    ensures lo <= Mix(p, q, f, g) <= hi
  {
    MixAtCorners(sizeP, sizeQ, f, g);
    ScaledBetween(p, sizeP, f);
    ScaledBetween(q, sizeQ, g);
    Halves(p * f, q * g, lo, hi, sizeP * f, sizeQ * g);
  }

  lemma CornerParts(bp: Blueprint, opts: PasteOptions, i: nat)
    requires i < 4
    ensures var c, at, t := WorldCorner(bp, opts, i), Corner(bp, i), opts.turn;
            c.x == opts.origin.x + Mix(at.x, at.y, t.c, Neg(t.s)) && c.y == opts.origin.y + Mix(at.x, at.y, t.s, t.c)
  {
    hide Mix, Neg, Corner, RotateAroundZ;
    TurnedParts(Corner(bp, i), opts.turn);
  }

  lemma PieceParts(opts: PasteOptions, p: Piece)
    ensures var d, t := Destination(opts, p), opts.turn;
            d.x == opts.origin.x + Mix(p.x, p.y, t.c, Neg(t.s)) && d.y == opts.origin.y + Mix(p.x, p.y, t.s, t.c) &&
            d.z == opts.origin.z + p.z
  {
    hide Mix, Neg, RotateAroundZ;
    TurnedParts(Offset(p), opts.turn);
  }

  lemma CornerInBox(bp: Blueprint, opts: PasteOptions, lo: Vec, hi: Vec, i: nat)
    requires IsFootprint(bp, opts, 4, lo, hi) && i < 4
    ensures var c := WorldCorner(bp, opts, i); lo.x <= c.x <= hi.x && lo.y <= c.y <= hi.y
  {
    hide WorldCorner;
  }

  lemma InFootprintAlongX(bp: Blueprint, opts: PasteOptions, lo: Vec, hi: Vec, p: Piece)
    requires IsFootprint(bp, opts, 4, lo, hi) && InsideExtent(bp, p)
    ensures lo.x <= Destination(opts, p).x <= hi.x
  {
    hide IsFootprint, WorldCorner, Destination, Mix, Neg;
    forall i: nat | i < 4
      ensures var at, t := Corner(bp, i), opts.turn;
              lo.x - opts.origin.x <= Mix(at.x, at.y, t.c, Neg(t.s)) <= hi.x - opts.origin.x
    {
      CornerInBox(bp, opts, lo, hi, i);
      CornerParts(bp, opts, i);
    }
    assert Corner(bp, 0) == Vec(0.0, 0.0, 0.0) && Corner(bp, 1).x == bp.sizeX && Corner(bp, 2).y == bp.sizeY &&
           Corner(bp, 3).x == 0.0;
    PieceParts(opts, p);
    MixBetween(p.x, bp.sizeX, p.y, bp.sizeY, opts.turn.c, Neg(opts.turn.s), lo.x - opts.origin.x, hi.x - opts.origin.x);
  }

  lemma InFootprintAlongY(bp: Blueprint, opts: PasteOptions, lo: Vec, hi: Vec, p: Piece)
    requires IsFootprint(bp, opts, 4, lo, hi) && InsideExtent(bp, p)
    ensures lo.y <= Destination(opts, p).y <= hi.y
  {
    hide IsFootprint, WorldCorner, Destination, Mix, Neg;
    forall i: nat | i < 4
      ensures var at, t := Corner(bp, i), opts.turn;
              lo.y - opts.origin.y <= Mix(at.x, at.y, t.s, t.c) <= hi.y - opts.origin.y
    {
      CornerInBox(bp, opts, lo, hi, i);
      CornerParts(bp, opts, i);
    }
    assert Corner(bp, 0) == Vec(0.0, 0.0, 0.0) && Corner(bp, 1).x == bp.sizeX && Corner(bp, 2).y == bp.sizeY &&
           Corner(bp, 3).x == 0.0;
    PieceParts(opts, p);
    MixBetween(p.x, bp.sizeX, p.y, bp.sizeY, opts.turn.s, opts.turn.c, lo.y - opts.origin.y, hi.y - opts.origin.y);
  }

  /** Whatever the turn, every piece inside the extent is inside the box of the four corners. */
  lemma PiecesInFootprint(bp: Blueprint, opts: PasteOptions, lo: Vec, hi: Vec, p: Piece)
    requires IsFootprint(bp, opts, 4, lo, hi) && InsideExtent(bp, p)
    ensures InBox(Destination(opts, p), lo, hi)
  {
    hide WorldCorner, Destination, Mix, Neg;
    InFootprintAlongX(bp, opts, lo, hi, p);
    InFootprintAlongY(bp, opts, lo, hi, p);
    PieceParts(opts, p);
  }

  // ----- the column key -----

  /** Exclusive or on two's-complement integers of unbounded width. */
  function Xor(a: int, b: int): int
    decreases if a < 0 then -a else a, if b < 0 then -b else b
  {
    if (a == 0 || a == -1) && (b == 0 || b == -1) then (if a == b then 0 else -1)
    else 2 * Xor(a / 2, b / 2) + (a % 2 + b % 2) % 2
  }

  lemma HalveShift(y: int, h: int)
    requires h > 0
    ensures (y / 2) / h == y / (2 * h)
    ensures y % (2 * h) == 2 * ((y / 2) % h) + y % 2
  {
    var q, r := y / (2 * h), y % (2 * h);
    var s, b := r / 2, r % 2;
    assert y == q * (2 * h) + r;
    assert q * (2 * h) == 2 * (q * h);
    QuotientAndRest(y, 2, q * h + s, b);
    QuotientAndRest(y / 2, h, q, s);
  }

  lemma XorUnfolds(a: int, b: int)
    ensures Xor(a, b) == 2 * Xor(a / 2, b / 2) + (a % 2 + b % 2) % 2
  {
    assert 0 / 2 == 0 && -1 / 2 == -1 && 0 % 2 == 0 && -1 % 2 == 1;
    if (a == 0 || a == -1) && (b == 0 || b == -1) {
      XorOfSigns();
      hide Xor;
    }
  }

  lemma XorOfSigns()
    ensures Xor(0, 0) == 0 && Xor(0, -1) == -1 && Xor(-1, 0) == -1 && Xor(-1, -1) == 0
  {
  }

  lemma XorEven(a: int, y: int)
    ensures Xor(2 * a, y) == 2 * Xor(a, y / 2) + y % 2
  {
    hide Xor;
    XorUnfolds(2 * a, y);
    assert (2 * a) / 2 == a && (2 * a) % 2 == 0;
    assert (0 + y % 2) % 2 == y % 2;
  }

  /** Below the lowest bit of a shifted number, the other operand shows through unchanged. */
  lemma {:induction false} XorShifted(x: int, y: int, n: nat)
    ensures Pow2(n) > 0
    ensures Xor(x * Pow2(n), y) == Xor(x, y / Pow2(n)) * Pow2(n) + y % Pow2(n)
    decreases n
  {
    hide Xor;
    if n == 0 {
      assert y / 1 == y && y % 1 == 0 && x * 1 == x;
    } else {
      XorShifted(x, y / 2, n - 1);
      var h := Pow2(n - 1);
      HalveShift(y, h);
      XorEven(x * h, y);
      assert x * (2 * h) == 2 * (x * h);
      var high := Xor(x, y / (2 * h));
      assert 2 * (high * h) == high * (2 * h);
    }
  }

  lemma {:induction false} XorSigns(x: int)
    ensures Xor(x, 0) == x && Xor(x, -1) == -1 - x
    decreases if x < 0 then -x else x
  {
    if x != 0 && x != -1 {
      XorSigns(x / 2);
    }
  }

  /** Columns are whole units; the key packs both coordinates into one word. */
  datatype Column = Column(x: int, y: int)

  const SHIFT: nat := 21

  const HALF: int := 0x10_0000     // 2 to the 20

  function Key(c: Column): int {
    Xor(c.x * Pow2(SHIFT), c.y)
  }

  predicate InWindow(y: int) {
    -HALF <= y < HALF
  }

  lemma ShiftIsTwoHalves()
    ensures Pow2(SHIFT) == 2 * HALF
  {
    Pow2Double(10, 10);
    assert Pow2(10) == 1024 by { assert Pow2(5) == 32; Pow2Double(5, 5); }
    assert Pow2(21) == 2 * Pow2(20);
  }

  /** The key in arithmetic terms: the low part of `y` below, `x` crossed with the rest above. */
  lemma KeyParts(c: Column)
    ensures Key(c) / (2 * HALF) == Xor(c.x, c.y / (2 * HALF))
    ensures Key(c) % (2 * HALF) == c.y % (2 * HALF)
  {
    ShiftIsTwoHalves();
    XorShifted(c.x, c.y, SHIFT);
    QuotientAndRest(Key(c), 2 * HALF, Xor(c.x, c.y / (2 * HALF)), c.y % (2 * HALF));
  }

  lemma InWindowIff(y: int)
    ensures InWindow(y) <==> -0x10_0000 <= y < 0x10_0000
  {
  }

  /** Exactly when two columns share a key. */
  lemma KeysCollideIff(c: Column, d: Column)
    ensures Key(c) == Key(d) <==>
            c.y % (2 * HALF) == d.y % (2 * HALF) && Xor(c.x, c.y / (2 * HALF)) == Xor(d.x, d.y / (2 * HALF))
  {
    hide Key, Xor;
    KeyParts(c);
    KeyParts(d);
  }

  lemma WindowParts(y: int)
    requires InWindow(y)
    ensures y / (2 * HALF) == (if y >= 0 then 0 else -1)
    ensures y % (2 * HALF) == if y >= 0 then y else y + 2 * HALF
  {
    QuotientAndRest(y, 2 * HALF, if y >= 0 then 0 else -1, if y >= 0 then y else y + 2 * HALF);
  }

  /** Inside the window, negative coordinates included, no two columns share a key. */
  lemma KeyIsInjective(c: Column, d: Column)
    requires InWindow(c.y) && InWindow(d.y) && Key(c) == Key(d)
    ensures c == d
  {
    KeysCollideIff(c, d);
    WindowParts(c.y);
    WindowParts(d.y);
    XorSigns(c.x);
    XorSigns(d.x);
  }

  /** One step outside the window the key is no longer injective. */
  lemma WindowIsSharp()
    ensures Key(Column(0, 0x10_0000)) == Key(Column(-1, -0x10_0000))
  {
    KeysCollideIff(Column(0, HALF), Column(-1, -HALF));
    WindowParts(-HALF);
    QuotientAndRest(HALF, 2 * HALF, 0, HALF);
    XorSigns(0);
    XorSigns(-1);
  }

  // ----- the burial check -----

  datatype Burial = Burial(buried: nat, worst: real, columns: nat)

  function ColumnOf(p: Vec): Column {
    Column(LRound(p.x), LRound(p.y))
  }

  /** A column holds the positions whose nearest whole coordinates it names. */
  lemma ColumnOfIff(p: Vec, c: Column)
    ensures ColumnOf(p) == c <==> IsNearest(p.x, c.x) && IsNearest(p.y, c.y)
  {
    hide LRound, IsNearest;
    RoundsWithin(p.x, c.x);
    RoundsWithin(p.y, c.y);
  }

  /** The key is the one coordinate shifted up by 21 bits, crossed with the other. */
  lemma KeyIs(c: Column)
    ensures Key(c) == Xor(c.x * 0x20_0000, c.y)
  {
    hide Xor;
    ShiftIsTwoHalves();
  }

  function KeyOf(p: Vec): int {
    Key(ColumnOf(p))
  }

  /** The first ground hit among the first `n` positions that share the key. */
  function KeyGround(pts: seq<Vec>, ground: Ground, n: nat, k: int): Option<real>
    requires n <= |pts|
  {
    if n == 0 then None
    else
      var before := KeyGround(pts, ground, n - 1, k);
      if before.Some? then before
      else if KeyOf(pts[n - 1]) == k then ground(pts[n - 1].x, pts[n - 1].y)
      else None
  }

  /** The keys, and the columns, under which some position among the first `n` hits ground. */
  function HitKeys(pts: seq<Vec>, ground: Ground, n: nat): set<int>
    requires n <= |pts|
  {
    set i | 0 <= i < n && ground(pts[i].x, pts[i].y).Some? :: KeyOf(pts[i])
  }

  function HitColumns(pts: seq<Vec>, ground: Ground, n: nat): set<Column>
    requires n <= |pts|
  {
    set i | 0 <= i < n && ground(pts[i].x, pts[i].y).Some? :: ColumnOf(pts[i])
  }

  function Deeper(b: Burial, height: Option<real>, z: real): Burial {
    if height.Some? && height.value - z > 0.0
    then b.(buried := b.buried + 1, worst := Max(b.worst, height.value - z)) else b
  }

  /** Each position judged by the first hit under its own key so far. */
  function SharedBurial(pts: seq<Vec>, ground: Ground, n: nat): Burial
    requires n <= |pts|
  {
    if n == 0 then Burial(0, 0.0, 0)
    else Deeper(SharedBurial(pts, ground, n - 1),
                KeyGround(pts, ground, n, KeyOf(pts[n - 1])), pts[n - 1].z)
         .(columns := |HitKeys(pts, ground, n)|)
  }

  /** Each position judged by its own ground sample, with no sharing at all. */
  function DirectBurial(pts: seq<Vec>, ground: Ground, n: nat): Burial
    requires n <= |pts|
  {
    if n == 0 then Burial(0, 0.0, 0)
    else Deeper(DirectBurial(pts, ground, n - 1), ground(pts[n - 1].x, pts[n - 1].y), pts[n - 1].z)
         .(columns := |HitColumns(pts, ground, n)|)
  }

  function Positions(bp: Blueprint, opts: PasteOptions): seq<Vec> {
    seq(|bp.pieces|, i requires 0 <= i < |bp.pieces| => Destination(opts, bp.pieces[i]))
  }

  /** The cache holds exactly the ground hits so far. */
  ghost predicate IsCache(cache: map<int, real>, pts: seq<Vec>, ground: Ground, n: nat)
    requires n <= |pts|
  {
    |cache| == |HitKeys(pts, ground, n)| &&
    forall k: int :: (k in cache <==> KeyGround(pts, ground, n, k).Some?) &&
                     (k in cache ==> Some(cache[k]) == KeyGround(pts, ground, n, k))
  }

  lemma {:induction false} HitIffGround(pts: seq<Vec>, ground: Ground, n: nat, k: int)
    requires n <= |pts|
    ensures k in HitKeys(pts, ground, n) <==> KeyGround(pts, ground, n, k).Some?
  {
    if n > 0 { HitIffGround(pts, ground, n - 1, k); }
  }

  lemma NextGround(pts: seq<Vec>, ground: Ground, n: nat, k: int)
    requires n < |pts|
    ensures var before := KeyGround(pts, ground, n, k);
            KeyGround(pts, ground, n + 1, k)
            == if before.Some? then before
               else if KeyOf(pts[n]) == k then ground(pts[n].x, pts[n].y) else None
  {
  }

  lemma NextKeys(pts: seq<Vec>, ground: Ground, n: nat)
    requires n < |pts|
    ensures var before, k := HitKeys(pts, ground, n), KeyOf(pts[n]);
            (ground(pts[n].x, pts[n].y).None? || k in before ==> HitKeys(pts, ground, n + 1) == before) &&
            (ground(pts[n].x, pts[n].y).Some? && k !in before ==> |HitKeys(pts, ground, n + 1)| == |before| + 1)
  {
    var before, k := HitKeys(pts, ground, n), KeyOf(pts[n]);
    if ground(pts[n].x, pts[n].y).Some? && k !in before {
      assert HitKeys(pts, ground, n + 1) == before + {k};
    }
  }

  /** What one step does to the cache: a first hit under a key is added, all else stays. */
  lemma CacheStep(cache: map<int, real>, pts: seq<Vec>, ground: Ground, n: nat)
    requires n < |pts| && IsCache(cache, pts, ground, n)
    ensures var k, g := KeyOf(pts[n]), ground(pts[n].x, pts[n].y);
            (k in cache || g.None? ==> IsCache(cache, pts, ground, n + 1)) &&
            (k !in cache && g.Some? ==> IsCache(cache[k := g.value], pts, ground, n + 1))
  {
    hide KeyOf, KeyGround, HitKeys;
    HitIffGround(pts, ground, n, KeyOf(pts[n]));
    NextKeys(pts, ground, n);
    forall k: int
      ensures var before := KeyGround(pts, ground, n, k);
              KeyGround(pts, ground, n + 1, k)
              == if before.Some? then before
                 else if KeyOf(pts[n]) == k then ground(pts[n].x, pts[n].y) else None
    {
      NextGround(pts, ground, n, k);
    }
  }

  method CheckBurial(bp: Blueprint, opts: PasteOptions, ground: Ground) returns (b: Burial)
    ensures b == SharedBurial(Positions(bp, opts), ground, |bp.pieces|)
  {
    hide KeyOf, Destination, HitKeys;
    ghost var pts := Positions(bp, opts);
    var column: map<int, real> := map[];
    var buried, worst, columns := 0, 0.0, 0;
    NoKeysYet(pts, ground);
    for i := 0 to |bp.pieces|
      invariant IsCache(column, pts, ground, i) && columns == |column|
      invariant SharedBurial(pts, ground, i) == Burial(buried, worst, columns)
    {
      var p := Destination(opts, bp.pieces[i]);
      assert p == pts[i];
      CacheStep(column, pts, ground, i);
      var k := KeyOf(p);
      var height := if k in column then Some(column[k]) else None;
      if k !in column {
        height := ground(p.x, p.y);
        if height.Some? {
          column := column[k := height.value];
          columns := columns + 1;
        }
      }
      if height.Some? {
        var depth := height.value - p.z;
        if depth > 0.0 {
          buried := buried + 1;
          worst := Max(worst, depth);
        }
      }
    }
    b := Burial(buried, worst, columns);
  }

  lemma NoKeysYet(pts: seq<Vec>, ground: Ground)
    ensures HitKeys(pts, ground, 0) == {}
  {
  }

  /** The ground is the same everywhere in a column. */
  ghost predicate IsConstantOnColumns(ground: Ground) {
    forall p: Vec, q: Vec :: ColumnOf(p) == ColumnOf(q) ==> ground(p.x, p.y) == ground(q.x, q.y)
  }

  /** Any ground that looks at the column alone is. */
  lemma ColumnGroundIsConstant(relief: Column -> Option<real>)
    ensures IsConstantOnColumns((x: real, y: real) => relief(ColumnOf(Vec(x, y, 0.0))))
  {
    hide LRound;
  }

  predicate AllInWindow(pts: seq<Vec>, n: nat)
    requires n <= |pts|
  {
    forall i :: 0 <= i < n ==> InWindow(ColumnOf(pts[i]).y)
  }

  lemma {:induction false} KeyGroundIsOwn(pts: seq<Vec>, ground: Ground, n: nat, p: Vec)
    requires n <= |pts| && IsConstantOnColumns(ground) && AllInWindow(pts, n) && InWindow(ColumnOf(p).y)
    ensures KeyGround(pts, ground, n, KeyOf(p)) == None || KeyGround(pts, ground, n, KeyOf(p)) == ground(p.x, p.y)
  {
    hide ColumnOf, Key;
    if n > 0 {
      KeyGroundIsOwn(pts, ground, n - 1, p);
      if KeyOf(pts[n - 1]) == KeyOf(p) { KeyIsInjective(ColumnOf(pts[n - 1]), ColumnOf(p)); }
    }
  }

  /** Inside the window there are as many keys as columns. */
  lemma {:induction false} KeysCountColumns(pts: seq<Vec>, ground: Ground, n: nat)
    requires n <= |pts| && AllInWindow(pts, n)
    ensures |HitKeys(pts, ground, n)| == |HitColumns(pts, ground, n)|
  {
    if n == 0 {
      assert HitKeys(pts, ground, 0) == {} && HitColumns(pts, ground, 0) == {};
    } else {
      hide HitKeys, HitColumns, KeyOf, ColumnOf, InWindow;
      KeysCountColumns(pts, ground, n - 1);
      NextKeys(pts, ground, n - 1);
      NextColumns(pts, ground, n - 1);
      SameMembership(pts, ground, n - 1, pts[n - 1]);
    }
  }

  lemma NextColumns(pts: seq<Vec>, ground: Ground, n: nat)
    requires n < |pts|
    ensures var before, c := HitColumns(pts, ground, n), ColumnOf(pts[n]);
            (ground(pts[n].x, pts[n].y).None? || c in before ==> HitColumns(pts, ground, n + 1) == before) &&
            (ground(pts[n].x, pts[n].y).Some? && c !in before ==> |HitColumns(pts, ground, n + 1)| == |before| + 1)
  {
    var before, c := HitColumns(pts, ground, n), ColumnOf(pts[n]);
    if ground(pts[n].x, pts[n].y).Some? && c !in before {
      assert HitColumns(pts, ground, n + 1) == before + {c};
    }
  }

  lemma SameMembership(pts: seq<Vec>, ground: Ground, n: nat, p: Vec)
    requires n <= |pts| && AllInWindow(pts, n) && InWindow(ColumnOf(p).y)
    ensures KeyOf(p) in HitKeys(pts, ground, n) <==> ColumnOf(p) in HitColumns(pts, ground, n)
  {
    hide ColumnOf, Key, InWindow;
    if KeyOf(p) in HitKeys(pts, ground, n) {
      var i :| 0 <= i < n && ground(pts[i].x, pts[i].y).Some? && KeyOf(pts[i]) == KeyOf(p);
      KeyIsInjective(ColumnOf(pts[i]), ColumnOf(p));
    }
  }

  /** In the window, on ground constant on columns, the cached check finds what direct sampling finds. */
  lemma {:induction false} CachedIsDirect(pts: seq<Vec>, ground: Ground, n: nat)
    requires n <= |pts| && IsConstantOnColumns(ground) && AllInWindow(pts, n)
    ensures SharedBurial(pts, ground, n) == DirectBurial(pts, ground, n)
  {
    hide ColumnOf, HitColumns, HitKeys, Deeper, KeyOf;
    if n > 0 {
      CachedIsDirect(pts, ground, n - 1);
      KeyGroundIsOwn(pts, ground, n - 1, pts[n - 1]);
      KeysCountColumns(pts, ground, n);
    }
  }

  predicate IsBuried(p: Vec, ground: Ground) {
    DepthOf(p, ground) > 0.0
  }

  function DepthOf(p: Vec, ground: Ground): real {
    if ground(p.x, p.y).Some? then ground(p.x, p.y).value - p.z else 0.0
  }

  function BuriedAmong(pts: seq<Vec>, ground: Ground, n: nat): set<nat>
    requires n <= |pts|
  {
    set i: nat | i < n && IsBuried(pts[i], ground)
  }

  lemma BuriedOneMore(pts: seq<Vec>, ground: Ground, n: nat)
    requires n < |pts|
    ensures |BuriedAmong(pts, ground, n + 1)|
            == |BuriedAmong(pts, ground, n)| + if IsBuried(pts[n], ground) then 1 else 0
  {
    hide IsBuried;
    var before := BuriedAmong(pts, ground, n);
    if IsBuried(pts[n], ground) {
      assert BuriedAmong(pts, ground, n + 1) == before + {n};
    } else {
      assert BuriedAmong(pts, ground, n + 1) == before;
    }
  }

  lemma DeeperOneMore(pts: seq<Vec>, ground: Ground, n: nat)
    requires n < |pts|
    ensures DirectBurial(pts, ground, n + 1).buried
            == DirectBurial(pts, ground, n).buried + if IsBuried(pts[n], ground) then 1 else 0
  {
    hide HitColumns;
  }

  /** Direct sampling counts exactly the positions below ground. */
  lemma {:induction false} DirectBurialCounts(pts: seq<Vec>, ground: Ground, n: nat)
    requires n <= |pts|
    ensures DirectBurial(pts, ground, n).buried == |BuriedAmong(pts, ground, n)|
  {
    if n == 0 {
      assert BuriedAmong(pts, ground, 0) == {};
    } else {
      hide DirectBurial, BuriedAmong, IsBuried;
      DirectBurialCounts(pts, ground, n - 1);
      BuriedOneMore(pts, ground, n - 1);
      DeeperOneMore(pts, ground, n - 1);
    }
  }

  /** Its worst depth is the greatest depth of all, or zero when nothing is buried. */
  lemma {:induction false} DirectBurialFindsWorst(pts: seq<Vec>, ground: Ground, n: nat)
    requires n <= |pts|
    ensures var worst := DirectBurial(pts, ground, n).worst;
            worst >= 0.0 && (forall i :: 0 <= i < n ==> DepthOf(pts[i], ground) <= worst) &&
            (worst == 0.0 || exists i :: 0 <= i < n && worst == DepthOf(pts[i], ground))
  {
    hide HitColumns;
    if n > 0 { DirectBurialFindsWorst(pts, ground, n - 1); }
  }

  lemma RoundedInWindow(p: Vec)
    requires -1048576.0 <= p.y < 1048575.5
    ensures InWindow(ColumnOf(p).y)
  {
    hide LRound, IsNearest;
    RoundsWithin(p.y, ColumnOf(p).y);
    NearestIsBetween(p.y, ColumnOf(p).y);
  }

  lemma NearestIsBetween(r: real, k: int)
    requires IsNearest(r, k) && -1048576.0 <= r < 1048575.5
    ensures -0x10_0000 <= k < 0x10_0000
  {
  }

  /** The piece belongs below the ground found at its place. */
  predicate IsPieceBuried(bp: Blueprint, opts: PasteOptions, ground: Ground, i: nat)
    requires i < |bp.pieces|
  {
    var d := Destination(opts, bp.pieces[i]);
    ground(d.x, d.y).Some? && ground(d.x, d.y).value > d.z
  }

  /**
   * What the check reports of a build that lies in the window, on ground constant on columns: how many
   * pieces belong below the ground at their own place, and how deep the deepest of them would lie.
   */
  lemma BurialIsExact(bp: Blueprint, opts: PasteOptions, ground: Ground)
    requires IsConstantOnColumns(ground)
    requires forall i :: 0 <= i < |bp.pieces| ==> -1048576.0 <= Destination(opts, bp.pieces[i]).y < 1048575.5
    ensures var b := SharedBurial(Positions(bp, opts), ground, |bp.pieces|);
            b.buried == |set i: nat | i < |bp.pieces| && IsPieceBuried(bp, opts, ground, i)| && b.worst >= 0.0 &&
            (forall i :: 0 <= i < |bp.pieces| && IsPieceBuried(bp, opts, ground, i) ==>
               var d := Destination(opts, bp.pieces[i]); ground(d.x, d.y).value - d.z <= b.worst) &&
            (b.worst > 0.0 ==>
               exists i :: 0 <= i < |bp.pieces| && IsPieceBuried(bp, opts, ground, i) &&
                 var d := Destination(opts, bp.pieces[i]); b.worst == ground(d.x, d.y).value - d.z)
  {
    hide Destination, ColumnOf, InWindow, SharedBurial, DirectBurial, IsConstantOnColumns;
    var pts, n := Positions(bp, opts), |bp.pieces|;
    forall i | 0 <= i < n
      ensures InWindow(ColumnOf(pts[i]).y)
    {
      RoundedInWindow(pts[i]);
    }
    CachedIsDirect(pts, ground, n);
    DirectBurialCounts(pts, ground, n);
    DirectBurialFindsWorst(pts, ground, n);
    assert BuriedAmong(pts, ground, n) == set i: nat | i < n && IsPieceBuried(bp, opts, ground, i);
    forall i | 0 <= i < n && IsPieceBuried(bp, opts, ground, i)
      ensures var d := Destination(opts, bp.pieces[i]);
              ground(d.x, d.y).value - d.z <= SharedBurial(pts, ground, n).worst
    {
      assert DepthOf(pts[i], ground) <= SharedBurial(pts, ground, n).worst;
    }
    if SharedBurial(pts, ground, n).worst > 0.0 {
      var i :| 0 <= i < n && SharedBurial(pts, ground, n).worst == DepthOf(pts[i], ground);
      assert IsPieceBuried(bp, opts, ground, i);
    }
  }
}
