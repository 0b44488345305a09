/**
 * Capturing a selection (src/Capture.cpp): a live graph of actors becomes an index-based
 * blueprint.  The functions say what the blueprint is in terms of the captured actors alone; the
 * methods compute it in the source's passes, with its index tables, and are proved to agree.
 */
module Capture {
  import opened Wrappers
  import opened Geometry
  import opened Model
  import opened World

  datatype Selection = Selection(a: Option<Vec>, b: Option<Vec>) {

    predicate Complete() {
      a.Some? && b.Some?
    }

    function Lowest(): Vec
      requires Complete()
    {
      Vec(Geometry.Min(a.value.x, b.value.x), Geometry.Min(a.value.y, b.value.y), Geometry.Min(a.value.z, b.value.z))
    }

    function Highest(): Vec
      requires Complete()
    {
      Vec(Geometry.Max(a.value.x, b.value.x), Geometry.Max(a.value.y, b.value.y), Geometry.Max(a.value.z, b.value.z))
    }
  }

  datatype CaptureStats = CaptureStats(
    octreeReturned: nat, inBox: nat, noTransform: nat, noPath: nat, nearMiss: nat,
    linksCaptured: nat, floorsCaptured: nat, linksOutside: nat, captured: nat)

  const NO_STATS := CaptureStats(0, 0, 0, 0, 0, 0, 0, 0, 0)

  datatype CaptureError = CornersMissing | NothingSelected | NothingResolvable

  const NEAR: real := 500.0

  /** The box an actor must be in: the selection grown by the margin. */
  datatype Box = Box(lo: Vec, hi: Vec) {

    predicate Contains(p: Vec) {
      InBox(p, lo, hi)
    }

    function Grown(d: real): Box {
      Box(Vec(lo.x - d, lo.y - d, lo.z - d), Vec(hi.x + d, hi.y + d, hi.z + d))
    }
  }

  function CaptureBox(sel: Selection, margin: real): Box
    requires sel.Complete()
  {
    Box(sel.Lowest(), sel.Highest()).Grown(margin)
  }

  // ----- which actors -----

  predicate IsKept(box: Box, a: Actor) {
    a.transform.Some? && box.Contains(a.transform.value.loc)
  }

  /** The union of both octree groups over the sphere, each actor once. */
  ghost predicate IsCollected(w: Actors, s: Sphere, ids: seq<ActorId>) {
    Distinct(ids) &&
    (forall id :: id in ids ==> id in w && w[id].groups != {}) &&
    (forall id :: id in w && w[id].groups != {} && w[id].transform.Some? && InSphere(w[id].transform.value.loc, s)
      ==> id in ids)
  }

  /** The actors to capture: in the box and readable, in the order the octree returned them. */
  function Kept(w: Actors, box: Box, ids: seq<ActorId>): (kept: seq<ActorId>)
    requires forall id :: id in ids ==> id in w
    ensures forall id :: id in kept <==> id in ids && IsKept(box, w[id])
  {
    if ids == [] then []
    else
      var n := |ids| - 1;
      assert forall id :: id in ids <==> id in ids[..n] || id == ids[n];
      Kept(w, box, ids[..n]) + if IsKept(box, w[ids[n]]) then [ids[n]] else []
  }

  /** Of those, the ones whose blueprint path resolves: each becomes a piece. */
  function Resolvable(w: Actors, kept: seq<ActorId>): (captured: seq<ActorId>)
    requires forall id :: id in kept ==> id in w
    ensures forall id :: id in captured <==> id in kept && w[id].path != ""
    ensures |captured| <= |kept|
  {
    if kept == [] then []
    else
      var n := |kept| - 1;
      assert forall id :: id in kept <==> id in kept[..n] || id == kept[n];
      Resolvable(w, kept[..n]) + if w[kept[n]].path != "" then [kept[n]] else []
  }

  // ----- what a piece says -----

  function IndexOf<T(==)>(s: seq<T>, x: T): (i: nat)
    requires x in s
    ensures i < |s| && s[i] == x && x !in s[..i]
  {
    if s[0] == x then 0 else 1 + IndexOf(s[1..], x)
  }

  /** The distinct class paths, in the order they are first met. */
  function ClassesOf(w: Actors, ids: seq<ActorId>): (classes: seq<string>)
    requires forall id :: id in ids ==> id in w
    ensures forall c :: c in classes <==> exists id :: id in ids && w[id].path == c
  {
    if ids == [] then []
    else
      var n := |ids| - 1;
      var before := ClassesOf(w, ids[..n]);
      assert forall id :: id in ids <==> id in ids[..n] || id == ids[n];
      if w[ids[n]].path in before then before else before + [w[ids[n]].path]
  }

  /** The pieces a list of actor references names, in its order; null, outside and self dropped. */
  function LinkIndices(refs: seq<Option<ActorId>>, captured: seq<ActorId>, self: ActorId): seq<int> {
    if refs == [] then []
    else
      var n := |refs| - 1;
      LinkIndices(refs[..n], captured, self)
      + if refs[n].Some? && refs[n].value in captured && refs[n].value != self
        then [IndexOf(captured, refs[n].value)] else []
  }

  function FloorIndex(floor: Option<ActorId>, captured: seq<ActorId>, self: ActorId): int {
    if floor.Some? && floor.value in captured && floor.value != self then IndexOf(captured, floor.value) else -1
  }

  /** Position relative to the box's low corner, world rotation, and the class. */
  function Filled(a: Actor, classIndex: int, lo: Vec): Piece
    requires a.transform.Some?
  {
    var t := a.transform.value;
    DEFAULT_PIECE.(classIndex := classIndex,
                   x := t.loc.x - lo.x, y := t.loc.y - lo.y, z := t.loc.z - lo.z,
                   pitch := t.rot.pitch, yaw := t.rot.yaw, roll := t.rot.roll)
  }

  /** The piece of one captured actor before links are resolved. */
  function BarePiece(w: Actors, classes: seq<string>, lo: Vec, id: ActorId): Piece
    requires id in w && w[id].transform.Some? && w[id].path in classes
  {
    Filled(w[id], IndexOf(classes, w[id].path), lo)
  }

  predicate AreReadable(w: Actors, ids: seq<ActorId>) {
    forall id :: id in ids ==> id in w && w[id].transform.Some?
  }

  function LinkedPiece(a: Actor, captured: seq<ActorId>, p: Piece, id: ActorId): Piece {
    p.(floor := FloorIndex(a.floor, captured, id), links := LinkIndices(a.linked, captured, id))
  }

  function PieceOf(w: Actors, captured: seq<ActorId>, lo: Vec, id: ActorId): Piece
    requires AreReadable(w, captured) && id in captured
  {
    LinkedPiece(w[id], captured, BarePiece(w, ClassesOf(w, captured), lo, id), id)
  }

  function PiecesOf(w: Actors, captured: seq<ActorId>, lo: Vec): seq<Piece>
    requires AreReadable(w, captured)
  {
    seq(|captured|, k requires 0 <= k < |captured| => PieceOf(w, captured, lo, captured[k]))
  }

  // ----- facts about the tables -----

  lemma {:induction false} KeptDistinct(w: Actors, box: Box, ids: seq<ActorId>)
    requires Distinct(ids) && forall id :: id in ids ==> id in w
    ensures Distinct(Kept(w, box, ids))
  {
    if ids != [] {
      KeptDistinct(w, box, ids[..|ids| - 1]);
      assert ids[|ids| - 1] !in ids[..|ids| - 1];
    }
  }

  lemma {:induction false} ResolvableDistinct(w: Actors, kept: seq<ActorId>)
    requires Distinct(kept) && forall id :: id in kept ==> id in w
    ensures Distinct(Resolvable(w, kept))
  {
    if kept != [] {
      ResolvableDistinct(w, kept[..|kept| - 1]);
      assert kept[|kept| - 1] !in kept[..|kept| - 1];
    }
  }

  lemma IndexOfDistinct<T>(s: seq<T>, i: nat)
    requires Distinct(s) && i < |s|
    ensures IndexOf(s, s[i]) == i
  {
  }

  lemma {:induction false} FirstIsIndex<T>(s: seq<T>, x: T, i: nat)
    requires i < |s| && s[i] == x && x !in s[..i]
    ensures x in s && IndexOf(s, x) == i
    decreases i
  {
    if i > 0 {
      assert s[..i][0] == s[0];
      assert s[1..][..i - 1] == s[..i][1..];
      FirstIsIndex(s[1..], x, i - 1);
    }
  }

  lemma IndexOfPrefix<T>(a: seq<T>, b: seq<T>, x: T)
    requires x in a
    ensures IndexOf(a + b, x) == IndexOf(a, x)
  {
    var i := IndexOf(a, x);
    assert (a + b)[..i] == a[..i];
    FirstIsIndex(a + b, x, i);
  }

  lemma ResolvableNext(w: Actors, kept: seq<ActorId>, k: nat)
    requires k < |kept| && forall id :: id in kept ==> id in w
    ensures Resolvable(w, kept[..k + 1])
            == if w[kept[k]].path != "" then Resolvable(w, kept[..k]) + [kept[k]] else Resolvable(w, kept[..k])
  {
    assert kept[..k + 1][..k] == kept[..k];
  }

  /** The captured actors among the first `k` kept ones are the first captured ones. */
  lemma {:induction false} ResolvablePrefix(w: Actors, kept: seq<ActorId>, k: nat)
    requires k <= |kept| && forall id :: id in kept ==> id in w
    ensures Resolvable(w, kept[..k]) <= Resolvable(w, kept)
    ensures k < |kept| && w[kept[k]].path != "" ==>
              |Resolvable(w, kept[..k])| < |Resolvable(w, kept)| &&
              Resolvable(w, kept)[|Resolvable(w, kept[..k])|] == kept[k]
    decreases |kept| - k
  {
    hide Resolvable;
    if k == |kept| {
      assert kept[..k] == kept;
    } else {
      ResolvableNext(w, kept, k);
      ResolvablePrefix(w, kept, k + 1);
    }
  }

  lemma {:induction false} ClassesDistinct(w: Actors, ids: seq<ActorId>)
    requires forall id :: id in ids ==> id in w
    ensures Distinct(ClassesOf(w, ids))
  {
    if ids != [] { ClassesDistinct(w, ids[..|ids| - 1]); }
  }

  lemma {:induction false} ClassesPrefix(w: Actors, ids: seq<ActorId>, k: nat)
    requires k <= |ids| && forall id :: id in ids ==> id in w
    ensures ClassesOf(w, ids[..k]) <= ClassesOf(w, ids)
    decreases |ids|
  {
    if k == |ids| {
      assert ids[..k] == ids;
    } else {
      assert ids[..|ids| - 1][..k] == ids[..k];
      ClassesPrefix(w, ids[..|ids| - 1], k);
    }
  }

  // ----- collecting -----

  method CollectInSphere(engine: Engine, s: Sphere) returns (out: seq<ActorId>)
    ensures IsCollected(engine.actors, s, out)
  {
    var groups := [STRUCTURES, STRUCTURES_CORE];
    var seen: set<ActorId> := {};
    out := [];
    for g := 0 to |groups|
      invariant Distinct(out) && forall id :: id in out <==> id in seen
      invariant forall id :: id in seen ==> id in engine.actors && engine.actors[id].groups != {}
      invariant forall h, id :: 0 <= h < g && id in engine.actors && InRange(engine.actors[id], s, groups[h]) ==>
                id in seen
    {
      var found := engine.GetAllActorsInRange(s, groups[g]);
      for i := 0 to |found|
        invariant Distinct(out) && forall id :: id in out <==> id in seen
        invariant forall id :: id in seen ==> id in engine.actors && engine.actors[id].groups != {}
        invariant forall h, id :: 0 <= h < g && id in engine.actors && InRange(engine.actors[id], s, groups[h]) ==>
                  id in seen
        invariant forall k :: 0 <= k < i && found[k].Some? ==> found[k].value in seen
      {
        if found[i].Some? && found[i].value !in seen {
          seen := seen + {found[i].value};
          out := out + [found[i].value];
        }
      }
    }
    forall id | id in engine.actors && engine.actors[id].groups != {} && engine.actors[id].transform.Some? &&
                InSphere(engine.actors[id].transform.value.loc, s)
      ensures id in out
    {
      var g :| g in engine.actors[id].groups;
      assert g == groups[0] || g == groups[1];
    }
  }

  // ----- first pass -----

  /** How many actors of a list satisfy a property. */
  function CountIf(w: Actors, ids: seq<ActorId>, p: Actor -> bool): nat
    requires forall id :: id in ids ==> id in w
  {
    if ids == [] then 0
    else CountIf(w, ids[..|ids| - 1], p) + if p(w[ids[|ids| - 1]]) then 1 else 0
  }

  predicate IsUnreadable(a: Actor) {
    a.transform.None?
  }

  predicate IsOutside(box: Box, a: Actor) {
    a.transform.Some? && !box.Contains(a.transform.value.loc)
  }

  predicate IsNearMiss(box: Box, a: Actor) {
    IsOutside(box, a) && box.Grown(NEAR).Contains(a.transform.value.loc)
  }

  /** Every collected actor is unreadable, outside the box, or kept. */
  lemma {:induction false} CollectedSplit(w: Actors, box: Box, ids: seq<ActorId>)
    requires forall id :: id in ids ==> id in w
    ensures |ids| == CountIf(w, ids, a => IsUnreadable(a)) + CountIf(w, ids, a => IsOutside(box, a))
            + |Kept(w, box, ids)|
  {
    if ids != [] { CollectedSplit(w, box, ids[..|ids| - 1]); }
  }

  lemma KeptNext(w: Actors, box: Box, ids: seq<ActorId>, i: nat)
    requires i < |ids| && forall id :: id in ids ==> id in w
    ensures Kept(w, box, ids[..i + 1])
            == if IsKept(box, w[ids[i]]) then Kept(w, box, ids[..i]) + [ids[i]] else Kept(w, box, ids[..i])
    ensures Distinct(ids) ==> ids[i] !in Kept(w, box, ids[..i])
  {
    hide IsKept;
    assert ids[..i + 1][..i] == ids[..i];
  }

  lemma CountIfNext(w: Actors, ids: seq<ActorId>, i: nat, p: Actor -> bool)
    requires i < |ids| && forall id :: id in ids ==> id in w
    ensures CountIf(w, ids[..i + 1], p) == CountIf(w, ids[..i], p) + if p(w[ids[i]]) then 1 else 0
    ensures CountIf(w, ids[..0], p) == 0
  {
    assert ids[..i + 1][..i] == ids[..i];
  }

  lemma NothingKept(w: Actors, box: Box, ids: seq<ActorId>, p: Actor -> bool)
    requires forall id :: id in ids ==> id in w
    ensures Kept(w, box, ids[..0]) == [] && CountIf(w, ids[..0], p) == 0
  {
  }

  method KeepInBox(w: Actors, box: Box, ids: seq<ActorId>)
    returns (kept: seq<ActorId>, indexOf: map<ActorId, nat>, noTransform: nat, nearMiss: nat)
    requires Distinct(ids) && forall id :: id in ids ==> id in w
    ensures kept == Kept(w, box, ids)
    ensures forall id :: id in indexOf <==> id in kept
    ensures forall id :: id in kept ==> indexOf[id] < |kept| && kept[indexOf[id]] == id
    ensures noTransform == CountIf(w, ids, a => IsUnreadable(a))
    ensures nearMiss == CountIf(w, ids, a => IsNearMiss(box, a))
  {
    hide Kept, CountIf, Distinct, InBox;
    kept, indexOf, noTransform, nearMiss := [], map[], 0, 0;
    NothingKept(w, box, ids, a => IsUnreadable(a));
    NothingKept(w, box, ids, a => IsNearMiss(box, a));
    for i := 0 to |ids|
      invariant kept == Kept(w, box, ids[..i])
      invariant forall id :: id in indexOf <==> id in kept
      invariant forall id :: id in kept ==> indexOf[id] < |kept| && kept[indexOf[id]] == id
      invariant noTransform == CountIf(w, ids[..i], a => IsUnreadable(a))
      invariant nearMiss == CountIf(w, ids[..i], a => IsNearMiss(box, a))
    {
      var a := w[ids[i]];
      KeptNext(w, box, ids, i);
      CountIfNext(w, ids, i, a => IsUnreadable(a));
      CountIfNext(w, ids, i, a => IsNearMiss(box, a));
      if a.transform.None? {
        noTransform := noTransform + 1;
      } else if !box.Contains(a.transform.value.loc) {
        if box.Grown(NEAR).Contains(a.transform.value.loc) { nearMiss := nearMiss + 1; }
      } else {
        indexOf := indexOf[ids[i] := |kept|];
        kept := kept + [ids[i]];
      }
    }
    assert ids[..|ids|] == ids;
  }

  // ----- second pass: one piece per resolvable actor -----

  /** The pieces made from the first actors of `captured`, with the classes met so far. */
  ghost predicate AreBarePieces(w: Actors, captured: seq<ActorId>, lo: Vec, pieces: seq<Piece>)
  {
    AreReadable(w, captured) && |pieces| == |captured| &&
    forall j :: 0 <= j < |captured| ==> pieces[j] == BarePiece(w, ClassesOf(w, captured), lo, captured[j])
  }

  lemma OneMorePiece(w: Actors, captured: seq<ActorId>, lo: Vec, pieces: seq<Piece>, id: ActorId)
    requires AreBarePieces(w, captured, lo, pieces) && id in w && w[id].transform.Some?
    ensures AreReadable(w, captured + [id])
    ensures ClassesOf(w, captured + [id])
            == if w[id].path in ClassesOf(w, captured) then ClassesOf(w, captured)
               else ClassesOf(w, captured) + [w[id].path]
    ensures AreBarePieces(w, captured + [id], lo, pieces + [BarePiece(w, ClassesOf(w, captured + [id]), lo, id)])
  {
    hide Filled, IndexOf;
    var more := captured + [id];
    assert more[..|captured|] == captured;
    var before, after := ClassesOf(w, captured), ClassesOf(w, more);
    var added := if w[id].path in before then [] else [w[id].path];
    assert after == before + added;
    hide ClassesOf;
    forall j | 0 <= j < |captured|
      ensures pieces[j] == BarePiece(w, after, lo, captured[j])
    {
      IndexOfPrefix(before, added, w[captured[j]].path);
    }
  }

  /** The class table: `classIds` finds each class of the dictionary at its index. */
  ghost predicate IsInterned(classes: seq<string>, classIds: map<string, nat>) {
    (forall c :: c in classIds <==> c in classes) &&
    (forall c :: c in classes ==> classIds[c] == IndexOf(classes, c))
  }

  method Intern(classes0: seq<string>, classIds0: map<string, nat>, path: string)
    returns (classes: seq<string>, classIds: map<string, nat>)
    requires IsInterned(classes0, classIds0)
    ensures IsInterned(classes, classIds) && path in classes
    ensures path in classIds && classIds[path] == IndexOf(classes, path)
    ensures classes == if path in classes0 then classes0 else classes0 + [path]
  {
    classes, classIds := classes0, classIds0;
    if path !in classIds {
      NewClass(classes, classIds, path);
      classIds := classIds[path := |classes|];
      classes := classes + [path];
    }
  }

  lemma BareIsFilled(w: Actors, classes: seq<string>, lo: Vec, id: ActorId)
    requires id in w && w[id].transform.Some? && w[id].path in classes
    ensures BarePiece(w, classes, lo, id) == Filled(w[id], IndexOf(classes, w[id].path), lo)
  {
  }

  /** What the pass has made once it has looked at the first `k` kept actors. */
  ghost predicate IsFirstPass(w: Actors, kept: seq<ActorId>, lo: Vec, k: nat, pieces: seq<Piece>, classes: seq<string>,
                              keptToPiece: seq<int>, noPath: nat)
    requires k <= |kept|
  {
    AreReadable(w, kept) &&
    AreBarePieces(w, Resolvable(w, kept[..k]), lo, pieces) && |pieces| == |Resolvable(w, kept[..k])| &&
    classes == ClassesOf(w, Resolvable(w, kept[..k])) &&
    |keptToPiece| == |kept| && noPath + |pieces| == k &&
    forall j :: 0 <= j < |kept| ==>
      keptToPiece[j] == if j < k && w[kept[j]].path != "" then |Resolvable(w, kept[..j])| else -1
  }

  lemma NoPieces(w: Actors, kept: seq<ActorId>, lo: Vec)
    requires AreReadable(w, kept)
    ensures IsFirstPass(w, kept, lo, 0, [], [], seq(|kept|, _ => -1), 0)
    ensures IsInterned([], map[])
  {
    assert kept[..0] == [];
  }

  lemma FirstPassEnds(w: Actors, kept: seq<ActorId>, lo: Vec, pieces: seq<Piece>, classes: seq<string>,
                      keptToPiece: seq<int>, noPath: nat)
    requires Distinct(kept) && IsFirstPass(w, kept, lo, |kept|, pieces, classes, keptToPiece, noPath)
    ensures AreBarePieces(w, Resolvable(w, kept), lo, pieces)
    ensures forall j :: 0 <= j < |pieces| ==> pieces[j].links == [] && pieces[j].floor == -1
    ensures classes == ClassesOf(w, Resolvable(w, kept))
    ensures |keptToPiece| == |kept|
    ensures forall k :: 0 <= k < |kept| ==>
              keptToPiece[k] == if kept[k] in Resolvable(w, kept) then IndexOf(Resolvable(w, kept), kept[k]) else -1
    ensures noPath + |Resolvable(w, kept)| == |kept|
  {
    hide AreBarePieces, Resolvable, ClassesOf, IndexOf, Distinct;
    assert kept[..|kept|] == kept;
    PieceIndices(w, kept, keptToPiece);
    BareAreUnlinked(w, Resolvable(w, kept), lo, pieces);
  }

  lemma SkipsUnresolvable(w: Actors, kept: seq<ActorId>, lo: Vec, k: nat, pieces: seq<Piece>, classes: seq<string>,
                          keptToPiece: seq<int>, noPath: nat)
    requires k < |kept| && IsFirstPass(w, kept, lo, k, pieces, classes, keptToPiece, noPath)
    requires w[kept[k]].path == ""
    ensures IsFirstPass(w, kept, lo, k + 1, pieces, classes, keptToPiece, noPath + 1)
  {
    hide AreBarePieces, Resolvable, ClassesOf;
    ResolvableNext(w, kept, k);
  }

  lemma AddsResolvable(w: Actors, kept: seq<ActorId>, lo: Vec, k: nat, pieces: seq<Piece>, classes: seq<string>,
                       keptToPiece: seq<int>, noPath: nat, more: seq<string>)
    requires k < |kept| && IsFirstPass(w, kept, lo, k, pieces, classes, keptToPiece, noPath)
    requires w[kept[k]].path != "" && w[kept[k]].path in more
    requires more == if w[kept[k]].path in classes then classes else classes + [w[kept[k]].path]
    ensures var a := w[kept[k]];
            IsFirstPass(w, kept, lo, k + 1, pieces + [Filled(a, IndexOf(more, a.path), lo)], more,
                        keptToPiece[k := |pieces|], noPath)
  {
    hide AreBarePieces, Resolvable, ClassesOf, BarePiece, Filled, IndexOf;
    ResolvableNext(w, kept, k);
    OneMorePiece(w, Resolvable(w, kept[..k]), lo, pieces, kept[k]);
    BareIsFilled(w, more, lo, kept[k]);
  }

  method MakePieces(w: Actors, kept: seq<ActorId>, lo: Vec)
    returns (pieces: seq<Piece>, classes: seq<string>, keptToPiece: seq<int>, noPath: nat)
    requires Distinct(kept) && AreReadable(w, kept)
    ensures AreBarePieces(w, Resolvable(w, kept), lo, pieces)
    ensures forall j :: 0 <= j < |pieces| ==> pieces[j].links == [] && pieces[j].floor == -1
    ensures classes == ClassesOf(w, Resolvable(w, kept))
    ensures |keptToPiece| == |kept|
    ensures forall k :: 0 <= k < |kept| ==>
              keptToPiece[k] == if kept[k] in Resolvable(w, kept) then IndexOf(Resolvable(w, kept), kept[k]) else -1
    ensures noPath + |Resolvable(w, kept)| == |kept|
  {
    hide IsFirstPass, AreBarePieces, Filled, Resolvable, ClassesOf, IndexOf, Distinct, IsInterned;
    NoPieces(w, kept, lo);
    pieces, classes, noPath := [], [], 0;
    keptToPiece := seq(|kept|, _ => -1);
    var classIds: map<string, nat> := map[];
    for k := 0 to |kept|
      invariant IsFirstPass(w, kept, lo, k, pieces, classes, keptToPiece, noPath) && IsInterned(classes, classIds)
    {
      var a := w[kept[k]];
      if a.path == "" {
        SkipsUnresolvable(w, kept, lo, k, pieces, classes, keptToPiece, noPath);
        noPath := noPath + 1;
      } else {
        ghost var before := classes;
        FirstPassLength(w, kept, lo, k, pieces, classes, keptToPiece, noPath);
        classes, classIds := Intern(classes, classIds, a.path);
        AddsResolvable(w, kept, lo, k, pieces, before, keptToPiece, noPath, classes);
        keptToPiece := keptToPiece[k := |pieces|];
        pieces := pieces + [Filled(a, classIds[a.path], lo)];
      }
    }
    FirstPassEnds(w, kept, lo, pieces, classes, keptToPiece, noPath);
  }

  lemma FirstPassLength(w: Actors, kept: seq<ActorId>, lo: Vec, k: nat, pieces: seq<Piece>, classes: seq<string>,
                        keptToPiece: seq<int>, noPath: nat)
    requires k <= |kept| && IsFirstPass(w, kept, lo, k, pieces, classes, keptToPiece, noPath)
    ensures |keptToPiece| == |kept|
  {
  }

  lemma BareAreUnlinked(w: Actors, captured: seq<ActorId>, lo: Vec, pieces: seq<Piece>)
    requires AreBarePieces(w, captured, lo, pieces)
    ensures forall j :: 0 <= j < |pieces| ==> pieces[j].links == [] && pieces[j].floor == -1
  {
  }

  lemma NewClass(classes: seq<string>, classIds: map<string, nat>, c: string)
    requires c !in classes
    requires forall d :: d in classes ==> d in classIds && classIds[d] == IndexOf(classes, d)
    ensures IndexOf(classes + [c], c) == |classes|
    ensures forall d :: d in classes ==> IndexOf(classes + [c], d) == IndexOf(classes, d)
  {
    assert (classes + [c])[..|classes|] == classes;
    FirstIsIndex(classes + [c], c, |classes|);
    forall d | d in classes
      ensures IndexOf(classes + [c], d) == IndexOf(classes, d)
    {
      IndexOfPrefix(classes, [c], d);
    }
  }

  lemma PieceIndices(w: Actors, kept: seq<ActorId>, keptToPiece: seq<int>)
    requires Distinct(kept) && |keptToPiece| == |kept| && forall id :: id in kept ==> id in w
    requires forall j :: 0 <= j < |kept| ==>
               keptToPiece[j] == if w[kept[j]].path != "" then |Resolvable(w, kept[..j])| else -1
    ensures forall k :: 0 <= k < |kept| ==>
              keptToPiece[k] == if kept[k] in Resolvable(w, kept) then IndexOf(Resolvable(w, kept), kept[k]) else -1
  {
    var captured := Resolvable(w, kept);
    ResolvableDistinct(w, kept);
    forall k | 0 <= k < |kept|
      ensures keptToPiece[k] == if kept[k] in captured then IndexOf(captured, kept[k]) else -1
    {
      ResolvablePrefix(w, kept, k);
      if w[kept[k]].path != "" { IndexOfDistinct(captured, |Resolvable(w, kept[..k])|); }
    }
  }

  // ----- third pass: the support graph -----

  /** The index tables of the first two passes, for the captured actors they are about. */
  ghost predicate AreTables(kept: seq<ActorId>, captured: seq<ActorId>, indexOf: map<ActorId, nat>,
                            keptToPiece: seq<int>)
  {
    |keptToPiece| == |kept| &&
    (forall id :: id in indexOf <==> id in kept) &&
    (forall id :: id in kept ==> indexOf[id] < |kept| && kept[indexOf[id]] == id) &&
    (forall k :: 0 <= k < |kept| ==>
       keptToPiece[k] == if kept[k] in captured then IndexOf(captured, kept[k]) else -1) &&
    (forall id :: id in captured ==> id in kept)
  }

  /** References to actors that were not kept at all. */
  function CountOutside(refs: seq<Option<ActorId>>, kept: seq<ActorId>): nat {
    if refs == [] then 0
    else CountOutside(refs[..|refs| - 1], kept)
         + if refs[|refs| - 1].Some? && refs[|refs| - 1].value !in kept then 1 else 0
  }

  /** Following the tables from a kept actor gives its index, or no usable one. */
  lemma LookUp(kept: seq<ActorId>, captured: seq<ActorId>, indexOf: map<ActorId, nat>, keptToPiece: seq<int>,
               id: ActorId, other: ActorId)
    requires AreTables(kept, captured, indexOf, keptToPiece) && id in captured
    ensures other in indexOf <==> other in kept
    ensures other in captured ==> other in kept
    ensures other in kept ==>
              indexOf[other] < |keptToPiece| &&
              var target := keptToPiece[indexOf[other]];
              (target >= 0 && target != IndexOf(captured, id) <==> other in captured && other != id) &&
              (other in captured ==> target == IndexOf(captured, other))
  {
  }

  /** One actor's floor and links, through the tables. */
  method LinkOne(a: Actor, indexOf: map<ActorId, nat>, keptToPiece: seq<int>, self: int, bare: Piece,
                 ghost kept: seq<ActorId>, ghost captured: seq<ActorId>, ghost id: ActorId)
    returns (piece: Piece, outside: nat)
    requires AreTables(kept, captured, indexOf, keptToPiece)
    requires id in captured && self == IndexOf(captured, id) && bare.links == [] && bare.floor == -1
    ensures piece == LinkedPiece(a, captured, bare, id)
    ensures piece.floor == FloorIndex(a.floor, captured, id) && piece.links == LinkIndices(a.linked, captured, id)
    ensures outside == CountOutside(a.linked, kept)
  {
    hide AreTables, IndexOf;
    piece, outside := bare, 0;
    if a.floor.Some? { LookUp(kept, captured, indexOf, keptToPiece, id, a.floor.value); }
    if a.floor.Some? && a.floor.value in indexOf {
      var target := keptToPiece[indexOf[a.floor.value]];
      if target >= 0 && target != self { piece := piece.(floor := target); }
    }
    for i := 0 to |a.linked|
      invariant piece
                == bare.(floor := FloorIndex(a.floor, captured, id), links := LinkIndices(a.linked[..i], captured, id))
      invariant outside == CountOutside(a.linked[..i], kept)
    {
      assert a.linked[..i + 1][..i] == a.linked[..i];
      if a.linked[i].Some? {
        var other := a.linked[i].value;
        LookUp(kept, captured, indexOf, keptToPiece, id, other);
        if other !in indexOf {
          outside := outside + 1;
        } else {
          var target := keptToPiece[indexOf[other]];
          if target >= 0 && target != self { piece := piece.(links := piece.links + [target]); }
        }
      }
    }
    assert a.linked[..|a.linked|] == a.linked;
  }

  function SumLinks(w: Actors, captured: seq<ActorId>, n: nat): nat
    requires n <= |captured| && forall id :: id in captured ==> id in w
  {
    if n == 0 then 0
    else SumLinks(w, captured, n - 1) + |LinkIndices(w[captured[n - 1]].linked, captured, captured[n - 1])|
  }

  function SumFloors(w: Actors, captured: seq<ActorId>, n: nat): nat
    requires n <= |captured| && forall id :: id in captured ==> id in w
  {
    if n == 0 then 0
    else SumFloors(w, captured, n - 1)
         + if FloorIndex(w[captured[n - 1]].floor, captured, captured[n - 1]) >= 0 then 1 else 0
  }

  function SumOutside(w: Actors, kept: seq<ActorId>, captured: seq<ActorId>, n: nat): nat
    requires n <= |captured| && forall id :: id in captured ==> id in w
  {
    if n == 0 then 0
    else SumOutside(w, kept, captured, n - 1) + CountOutside(w[captured[n - 1]].linked, kept)
  }

  lemma SumOfNone(w: Actors, kept: seq<ActorId>, captured: seq<ActorId>)
    requires forall id :: id in captured ==> id in w
    ensures SumLinks(w, captured, 0) == SumFloors(w, captured, 0) == SumOutside(w, kept, captured, 0) == 0
  {
  }

  lemma SumNext(w: Actors, kept: seq<ActorId>, captured: seq<ActorId>, c: nat)
    requires c < |captured| && forall id :: id in captured ==> id in w
    ensures var a := w[captured[c]];
            SumLinks(w, captured, c + 1) == SumLinks(w, captured, c) + |LinkIndices(a.linked, captured, captured[c])| &&
            SumFloors(w, captured, c + 1)
            == SumFloors(w, captured, c) + (if FloorIndex(a.floor, captured, captured[c]) >= 0 then 1 else 0) &&
            SumOutside(w, kept, captured, c + 1) == SumOutside(w, kept, captured, c) + CountOutside(a.linked, kept)
  {
  }

  method LinkPieces(w: Actors, kept: seq<ActorId>, indexOf: map<ActorId, nat>, keptToPiece: seq<int>, bare: seq<Piece>)
    returns (pieces: seq<Piece>, links: nat, floors: nat, outside: nat)
    requires Distinct(kept) && AreReadable(w, kept) && |bare| == |Resolvable(w, kept)|
    requires AreTables(kept, Resolvable(w, kept), indexOf, keptToPiece)
    requires forall j :: 0 <= j < |bare| ==> bare[j].links == [] && bare[j].floor == -1
    ensures var captured := Resolvable(w, kept);
            |pieces| == |captured| &&
            (forall j :: 0 <= j < |pieces| ==>
               pieces[j] == LinkedPiece(w[captured[j]], captured, bare[j], captured[j])) &&
            links == SumLinks(w, captured, |captured|) && floors == SumFloors(w, captured, |captured|) &&
            outside == SumOutside(w, kept, captured, |captured|)
  {
    hide Resolvable, IndexOf, LinkIndices, CountOutside, FloorIndex, LinkedPiece, AreTables, Distinct,
      SumLinks, SumFloors, SumOutside;
    TablesFit(kept, Resolvable(w, kept), indexOf, keptToPiece);
    ghost var captured, c := Resolvable(w, kept), 0;
    pieces, links, floors, outside := bare, 0, 0, 0;
    StartOfPieces(w, kept);
    SumOfNone(w, kept, captured);
    for k := 0 to |kept|
      invariant c == |Resolvable(w, kept[..k])| <= |captured| == |pieces|
      invariant forall j :: 0 <= j < |pieces| ==>
                  pieces[j] == if j < c then LinkedPiece(w[captured[j]], captured, bare[j], captured[j]) else bare[j]
      invariant links == SumLinks(w, captured, c) && floors == SumFloors(w, captured, c)
      invariant outside == SumOutside(w, kept, captured, c)
    {
      PieceOfKept(w, kept, k);
      var self := keptToPiece[k];
      if self >= 0 {
        SumNext(w, kept, captured, c);
        var a := w[kept[k]];
        var piece, more := LinkOne(a, indexOf, keptToPiece, self, pieces[self], kept, captured, kept[k]);
        if piece.floor >= 0 { floors := floors + 1; }
        links := links + |piece.links|;
        outside := outside + more;
        pieces := pieces[self := piece];
        c := c + 1;
      }
    }
    assert kept[..|kept|] == kept;
  }

  lemma TablesFit(kept: seq<ActorId>, captured: seq<ActorId>, indexOf: map<ActorId, nat>, keptToPiece: seq<int>)
    requires AreTables(kept, captured, indexOf, keptToPiece)
    ensures |keptToPiece| == |kept|
    ensures forall k :: 0 <= k < |kept| ==>
              keptToPiece[k] == if kept[k] in captured then IndexOf(captured, kept[k]) else -1
  {
  }

  lemma StartOfPieces(w: Actors, kept: seq<ActorId>)
    requires Distinct(kept) && forall id :: id in kept ==> id in w
    ensures Resolvable(w, kept[..0]) == [] && Distinct(Resolvable(w, kept))
  {
    ResolvableDistinct(w, kept);
    assert kept[..0] == [];
  }

  /** Kept actors become pieces in order: the next one captured gets the next index. */
  lemma PieceOfKept(w: Actors, kept: seq<ActorId>, k: nat)
    requires Distinct(kept) && k < |kept| && forall id :: id in kept ==> id in w
    ensures var captured, c := Resolvable(w, kept), |Resolvable(w, kept[..k])|;
            c + (if kept[k] in captured then 1 else 0) == |Resolvable(w, kept[..k + 1])| <= |captured| &&
            (kept[k] in captured ==> captured[c] == kept[k] && IndexOf(captured, kept[k]) == c)
  {
    ResolvableDistinct(w, kept);
    ResolvableNext(w, kept, k);
    ResolvablePrefix(w, kept, k);
    ResolvablePrefix(w, kept, k + 1);
    if kept[k] in Resolvable(w, kept) {
      IndexOfDistinct(Resolvable(w, kept), |Resolvable(w, kept[..k])|);
    }
  }

  /** The second and third pass together. */
  method Serialise(w: Actors, kept: seq<ActorId>, indexOf: map<ActorId, nat>, lo: Vec)
    returns (pieces: seq<Piece>, classes: seq<string>, noPath: nat, links: nat, floors: nat, outside: nat)
    requires Distinct(kept) && AreReadable(w, kept)
    requires forall id :: id in indexOf <==> id in kept
    requires forall id :: id in kept ==> indexOf[id] < |kept| && kept[indexOf[id]] == id
    ensures var captured := Resolvable(w, kept);
            AreReadable(w, captured) && pieces == PiecesOf(w, captured, lo) && |pieces| == |captured| &&
            classes == ClassesOf(w, captured) &&
            noPath + |captured| == |kept| &&
            links == SumLinks(w, captured, |captured|) && floors == SumFloors(w, captured, |captured|) &&
            outside == SumOutside(w, kept, captured, |captured|)
  {
    hide ClassesOf, IndexOf, PiecesOf, SumLinks, SumFloors, SumOutside, Distinct, LinkedPiece, Filled;
    var bare, keptToPiece;
    bare, classes, keptToPiece, noPath := MakePieces(w, kept, lo);
    pieces, links, floors, outside := LinkPieces(w, kept, indexOf, keptToPiece, bare);
    LinkedIsPiecesOf(w, Resolvable(w, kept), lo, bare, pieces);
  }

  // ----- the whole capture -----

  /** The blueprint of a capture, apart from who made it and when. */
  function BlueprintOf(w: Actors, captured: seq<ActorId>, box: Box, name: string, utc: string, author: string)
    : Blueprint
    requires AreReadable(w, captured)
  {
    DEFAULT_BLUEPRINT.(
      name := name, createdUtc := utc, createdBy := author,
      originX := box.lo.x, originY := box.lo.y, originZ := box.lo.z,
      sizeX := box.hi.x - box.lo.x, sizeY := box.hi.y - box.lo.y, sizeZ := box.hi.z - box.lo.z,
      classes := ClassesOf(w, captured), pieces := PiecesOf(w, captured, box.lo))
  }

  function StatsOf(w: Actors, box: Box, ids: seq<ActorId>): CaptureStats
    requires forall id :: id in ids ==> id in w
  {
    var kept := Kept(w, box, ids);
    var captured := Resolvable(w, kept);
    var seen := CaptureStats(|ids|, |kept|, CountIf(w, ids, a => IsUnreadable(a)), 0,
                             CountIf(w, ids, a => IsNearMiss(box, a)), 0, 0, 0, 0);
    if kept == [] then seen
    else seen.(noPath := |kept| - |captured|,
               linksCaptured := SumLinks(w, captured, |captured|),
               floorsCaptured := SumFloors(w, captured, |captured|),
               linksOutside := SumOutside(w, kept, captured, |captured|),
               captured := |captured|)
  }

  /**
   * The kept actors are exactly the actors of the two groups that are readable and in the grown
   * box, each once: the sphere query cannot miss one.
   */
  lemma KeptIsEverythingInBox(w: Actors, box: Box, ids: seq<ActorId>)
    requires IsCollected(w, EnclosingSphere(box.lo, box.hi), ids)
    ensures forall id :: id in Kept(w, box, ids) <==> id in w && w[id].groups != {} && IsKept(box, w[id])
    ensures Distinct(Kept(w, box, ids))
  {
    KeptDistinct(w, box, ids);
    forall id | id in w && w[id].groups != {} && IsKept(box, w[id])
      ensures id in Kept(w, box, ids)
    {
      SphereCoversBox(w[id].transform.value.loc, box.lo, box.hi);
    }
  }

  /** On one axis: not below both corners by more than the margin, nor above both. */
  predicate WithinCorners(p: real, a: real, b: real, margin: real) {
    (p >= a - margin || p >= b - margin) && (p <= a + margin || p <= b + margin)
  }

  /** An actor a selection is meant to capture: in one of the two groups, readable, with a path, in the grown box. */
  ghost predicate IsSelected(a: Vec, b: Vec, margin: real, actor: Actor) {
    (STRUCTURES in actor.groups || STRUCTURES_CORE in actor.groups) && actor.path != "" && actor.transform.Some? &&
    var loc := actor.transform.value.loc;
    WithinCorners(loc.x, a.x, b.x, margin) && WithinCorners(loc.y, a.y, b.y, margin) &&
    WithinCorners(loc.z, a.z, b.z, margin)
  }

  /** What is captured, in terms of the corners as they were set, in either order. */
  lemma CapturedIsSelected(w: Actors, sel: Selection, margin: real, ids: seq<ActorId>)
    requires sel.Complete()
    requires var box := CaptureBox(sel, margin); IsCollected(w, EnclosingSphere(box.lo, box.hi), ids)
    ensures forall id :: id in ids ==> id in w
    ensures var captured := Resolvable(w, Kept(w, CaptureBox(sel, margin), ids));
            Distinct(captured) &&
            forall id :: id in captured <==> id in w && IsSelected(sel.a.value, sel.b.value, margin, w[id])
  {
    hide IsCollected, EnclosingSphere, Kept, Resolvable, IsSelected, Distinct;
    var box := CaptureBox(sel, margin);
    CollectedExist(w, EnclosingSphere(box.lo, box.hi), ids);
    KeptIsEverythingInBox(w, box, ids);
    ResolvableDistinct(w, Kept(w, box, ids));
    forall id | id in w
      ensures w[id].groups != {} && IsKept(box, w[id]) && w[id].path != "" <==>
              IsSelected(sel.a.value, sel.b.value, margin, w[id])
    {
      SelectedIsKept(sel, margin, w[id]);
    }
  }

  lemma SelectedIsKept(sel: Selection, margin: real, a: Actor)
    requires sel.Complete()
    ensures a.groups != {} && IsKept(CaptureBox(sel, margin), a) && a.path != "" <==>
            IsSelected(sel.a.value, sel.b.value, margin, a)
  {
    forall g | g in a.groups
      ensures g == STRUCTURES || g == STRUCTURES_CORE
    {
    }
    if a.groups != {} { var g :| g in a.groups; }
  }

  /** Origin and size of the recorded box on one axis. */
  predicate SpansCorners(origin: real, size: real, a: real, b: real, margin: real) {
    (origin == a - margin || origin == b - margin) && origin <= a - margin && origin <= b - margin &&
    (origin + size == a + margin || origin + size == b + margin) &&
    origin + size >= a + margin && origin + size >= b + margin
  }

  /** `ids` is what the octree returned, in its order; `before` is the caller's blueprint. */
  method CaptureSelection(engine: Engine, sel: Selection, margin: real, name: string, utc: string, author: string,
                          before: Blueprint)
    returns (out: Blueprint, stats: CaptureStats, error: Option<CaptureError>, ghost ids: seq<ActorId>,
             ghost captured: seq<ActorId>)
    ensures !sel.Complete() ==> error == Some(CornersMissing) && out == before && stats == NO_STATS
    ensures sel.Complete() ==>
              var box := CaptureBox(sel, margin);
              IsCollected(engine.actors, EnclosingSphere(box.lo, box.hi), ids) &&
              stats == StatsOf(engine.actors, box, ids) &&
              var kept := Kept(engine.actors, box, ids);
              captured == Resolvable(engine.actors, kept) &&
              error == (if kept == [] then Some(NothingSelected)
                        else if captured == [] then Some(NothingResolvable) else None) &&
              out == if kept == [] then before else BlueprintOf(engine.actors, captured, box, name, utc, author)
    ensures sel.Complete() ==>
              Distinct(captured) &&
              forall id :: id in captured <==>
                id in engine.actors && IsSelected(sel.a.value, sel.b.value, margin, engine.actors[id])
    ensures error.None? ==>
              sel.Complete() && |out.pieces| == |captured| &&
              var a, b := sel.a.value, sel.b.value;
              SpansCorners(out.originX, out.sizeX, a.x, b.x, margin) &&
              SpansCorners(out.originY, out.sizeY, a.y, b.y, margin) &&
              SpansCorners(out.originZ, out.sizeZ, a.z, b.z, margin)
  {
    hide Kept, Resolvable, ClassesOf, PiecesOf, CountIf, SumLinks, SumFloors, SumOutside, IsCollected, Distinct;
    out, stats, ids, captured := before, NO_STATS, [], [];
    if !sel.Complete() { return before, stats, Some(CornersMissing), [], []; }
    var box := CaptureBox(sel, margin);
    var w := engine.actors;
    var actors := CollectInSphere(engine, EnclosingSphere(box.lo, box.hi));
    CollectedExist(w, EnclosingSphere(box.lo, box.hi), actors);
    ids := actors;
    CapturedIsSelected(w, sel, margin, actors);
    captured := Resolvable(w, Kept(w, box, actors));
    var kept, indexOf, noTransform, nearMiss := KeepInBox(w, box, actors);
    stats := NO_STATS.(octreeReturned := |actors|, noTransform := noTransform, nearMiss := nearMiss, inBox := |kept|);
    if kept == [] { return before, stats, Some(NothingSelected), ids, captured; }
    KeptIsReadable(w, box, actors);
    var pieces, classes, noPath, links, floors, outside := Serialise(w, kept, indexOf, box.lo);
    out := DEFAULT_BLUEPRINT.(
      name := name, createdUtc := utc, createdBy := author,
      originX := box.lo.x, originY := box.lo.y, originZ := box.lo.z,
      sizeX := box.hi.x - box.lo.x, sizeY := box.hi.y - box.lo.y, sizeZ := box.hi.z - box.lo.z,
      classes := classes, pieces := pieces);
    stats := stats.(noPath := noPath, linksCaptured := links, floorsCaptured := floors, linksOutside := outside,
                    captured := |pieces|);
    error := if pieces == [] then Some(NothingResolvable) else None;
  }

  lemma CollectedExist(w: Actors, s: Sphere, ids: seq<ActorId>)
    requires IsCollected(w, s, ids)
    ensures Distinct(ids) && forall id :: id in ids ==> id in w
  {
  }

  lemma KeptIsReadable(w: Actors, box: Box, ids: seq<ActorId>)
    requires Distinct(ids) && forall id :: id in ids ==> id in w
    ensures Distinct(Kept(w, box, ids)) && AreReadable(w, Kept(w, box, ids))
  {
    KeptDistinct(w, box, ids);
  }

  lemma LinkedIsPiecesOf(w: Actors, captured: seq<ActorId>, lo: Vec, bare: seq<Piece>, pieces: seq<Piece>)
    requires AreBarePieces(w, captured, lo, bare) && |pieces| == |captured|
    requires forall j :: 0 <= j < |pieces| ==> pieces[j] == LinkedPiece(w[captured[j]], captured, bare[j], captured[j])
    ensures pieces == PiecesOf(w, captured, lo)
  {
  }
}
