/**
 * Capture, save, load, paste, undo, end to end: what arrives in the world is the captured part of
 * the graph, link for link and in order, and an undo takes exactly that away again.
 */
module Pipeline {
  import opened Wrappers
  import opened Geometry
  import opened Model
  import opened World
  import opened PasteSpec
  import opened PasteWorld
  import opened Capture
  import opened CaptureGraph
  import opened Undo
  import opened Paste
  import opened PastePlugin
  import opened Storage
  import Gzip

  // ----- a captured blueprint is fit to be saved and pasted -----

  /** Small enough for the 32-bit indices the source stores. */
  predicate FitsIndices(captured: seq<ActorId>) {
    |captured| < 0x8000_0000
  }

  lemma {:induction false} ClassesAreFew(w: Actors, ids: seq<ActorId>)
    requires forall id :: id in ids ==> id in w
    ensures |ClassesOf(w, ids)| <= |ids|
  {
    if ids != [] { ClassesAreFew(w, ids[..|ids| - 1]); }
  }

  /** Saving a captured blueprint loses nothing: it has the field types and is already normal. */
  lemma CapturedIsNormal(w: Actors, captured: seq<ActorId>, box: Box, name: string, utc: string, author: string)
    requires AreReadable(w, captured) && Distinct(captured) && FitsIndices(captured)
    ensures var bp := BlueprintOf(w, captured, box, name, utc, author);
            TypedBlueprint(bp) && NormalBlueprint(bp) == bp && ClassesInRange(bp)
  {
    var bp := BlueprintOf(w, captured, box, name, utc, author);
    ClassesAreFew(w, captured);
    forall i | 0 <= i < |captured|
      ensures TypedPiece(bp.pieces[i]) && NormalPiece(bp.pieces[i]) == bp.pieces[i]
    {
      DictionaryIsExact(w, captured, box.lo, i);
      FloorIsItsPiece(w, captured, box.lo, i);
      LinksKeepSourceOrder(w[captured[i]].linked, captured, captured[i]);
    }
    assert NormalBlueprint(bp).pieces == bp.pieces;
  }

  /** Captured offsets lie inside the recorded extent. */
  lemma CapturedIsInside(w: Actors, captured: seq<ActorId>, box: Box, name: string, utc: string, author: string, i: nat)
    requires AreReadable(w, captured) && i < |captured| && IsKept(box, w[captured[i]])
    ensures var bp := BlueprintOf(w, captured, box, name, utc, author);
            InsideExtent(bp, bp.pieces[i])
  {
  }

  // ----- the pasted graph is the image of the captured one -----

  /** The copy of a captured actor. */
  function CopyOf(captured: seq<ActorId>, spawned: Answers, id: ActorId): Option<ActorId>
    requires |captured| == |spawned| && id in captured
  {
    spawned[IndexOf(captured, id)]
  }

  /** The copies of captured actors, in order, without those whose spawn failed. */
  function CopiesOf(captured: seq<ActorId>, spawned: Answers, ids: seq<ActorId>): seq<Option<ActorId>>
    requires |captured| == |spawned| && forall id :: id in ids ==> id in captured
  {
    if ids == [] then []
    else
      var n := |ids| - 1;
      CopiesOf(captured, spawned, ids[..n]) + OneCopy(CopyOf(captured, spawned, ids[n]))
  }

  function OneCopy(copy: Option<ActorId>): seq<Option<ActorId>> {
    if copy.Some? then [copy] else []
  }

  /** With every spawn successful no copy is missing. */
  lemma {:induction false} AllAreCopied(captured: seq<ActorId>, spawned: Answers, ids: seq<ActorId>)
    requires |captured| == |spawned| && forall id :: id in ids ==> id in captured
    requires forall i :: 0 <= i < |spawned| ==> spawned[i].Some?
    ensures |CopiesOf(captured, spawned, ids)| == |ids|
    ensures forall m :: 0 <= m < |ids| ==> CopiesOf(captured, spawned, ids)[m] == CopyOf(captured, spawned, ids[m])
  {
    hide IndexOf, CopyOf;
    if ids != [] {
      var n := |ids| - 1;
      AllAreCopied(captured, spawned, ids[..n]);
      CopyWasSpawned(captured, spawned, ids[n]);
      assert CopiesOf(captured, spawned, ids)
             == CopiesOf(captured, spawned, ids[..n]) + [CopyOf(captured, spawned, ids[n])];
    }
  }

  lemma CopyWasSpawned(captured: seq<ActorId>, spawned: Answers, id: ActorId)
    requires |captured| == |spawned| && id in captured && forall i :: 0 <= i < |spawned| ==> spawned[i].Some?
    ensures CopyOf(captured, spawned, id).Some?
  {
  }

  /** The copy of the floor of a captured actor, when that is captured too and placed no later. */
  function CopiedFloor(w: Actors, captured: seq<ActorId>, spawned: Answers, order: seq<nat>, i: nat): Option<ActorId>
    requires AreReadable(w, captured) && i < |captured| == |spawned|
  {
    var floor := w[captured[i]].floor;
    if floor.Some? && floor.value in captured && floor.value != captured[i]
       && PlacedNoLater(order, IndexOf(captured, floor.value), i)
    then CopyOf(captured, spawned, floor.value) else None
  }

  lemma {:induction false} InsideRefsAreCaptured(refs: seq<Option<ActorId>>, captured: seq<ActorId>, self: ActorId)
    ensures forall id :: id in InsideRefs(refs, captured, self) ==> id in captured && id != self
  {
    if refs != [] { InsideRefsAreCaptured(refs[..|refs| - 1], captured, self); }
  }

  lemma {:induction false} ImageOfNamed(captured: seq<ActorId>, links: seq<int>, spawned: Answers,
                                        refs: seq<ActorId>, m: nat)
    requires Distinct(captured) && |captured| == |spawned| && m <= |links| == |refs|
    requires forall k :: 0 <= k < |links| ==> 0 <= links[k] < |captured| && captured[links[k]] == refs[k]
    ensures (forall id :: id in refs[..m] ==> id in captured) &&
            LinkImage(links, spawned, m) == CopiesOf(captured, spawned, refs[..m])
  {
    hide Distinct, IndexOf;
    if m > 0 {
      ImageOfNamed(captured, links, spawned, refs, m - 1);
      IndexOfDistinct(captured, links[m - 1]);
      assert refs[..m][..m - 1] == refs[..m - 1];
    }
  }

  /** The links of a copy are the copies of the original's references that were spawned, in the original's order. */
  lemma ImageIsCopies(w: Actors, captured: seq<ActorId>, lo: Vec, spawned: Answers, i: nat)
    requires AreReadable(w, captured) && Distinct(captured) && i < |captured| == |spawned|
    ensures var refs := InsideRefs(w[captured[i]].linked, captured, captured[i]);
            var links := PiecesOf(w, captured, lo)[i].links;
            (forall id :: id in refs ==> id in captured) &&
            LinkImage(links, spawned, |links|) == CopiesOf(captured, spawned, refs)
  {
    hide LinkIndices, InsideRefs, LinkImage, CopiesOf, Distinct;
    var self := captured[i];
    var refs := InsideRefs(w[self].linked, captured, self);
    var links := PiecesOf(w, captured, lo)[i].links;
    LinksKeepSourceOrder(w[self].linked, captured, self);
    InsideRefsAreCaptured(w[self].linked, captured, self);
    forall k | 0 <= k < |links|
      ensures captured[links[k]] == refs[k]
    {
      assert Named(links, captured)[k] == refs[k];
    }
    ImageOfNamed(captured, links, spawned, refs, |links|);
    assert refs[..|links|] == refs;
  }

  /**
   * Capture, then paste, whatever the engine answers.  Every captured actor that was spawned has
   * one copy, no two share one, and no copy existed before.  The copy has the original's class, its
   * floor is the copy of the original's floor, and its link list is the original's link list with
   * every reference to another captured and spawned actor replaced by that actor's copy, and all
   * other references dropped.  An invulnerable build gets neither floors nor links.
   */
  lemma PastedGraphIsImage(
    w: Actors, captured: seq<ActorId>, box: Box, name: string, utc: string, author: string,
    groupsOf: string -> set<Group>, plan: Plan, answers: Answers, target: Actors, i: nat)
    requires AreReadable(w, captured) && Distinct(captured) && i < |captured|
    requires plan.bp == BlueprintOf(w, captured, box, name, utc, author)
    requires AreAnswers(plan, answers) && |answers| == |plan.order| && AreNewSince(answers, 0, target)
    requires Spawned(plan, answers)[i].Some?
    ensures var spawned := Spawned(plan, answers);
            var after := Replay(groupsOf, target, OneShot(plan, answers));
            var copy, refs := spawned[i].value, InsideRefs(w[captured[i]].linked, captured, captured[i]);
            DistinctSpawned(spawned) && copy !in target && copy in after &&
            after[copy].path == w[captured[i]].path &&
            (forall id :: id in refs ==> id in captured) &&
            if plan.opts.invulnerable then after[copy].floor == None && after[copy].linked == []
            else
              after[copy].floor == CopiedFloor(w, captured, spawned, plan.order, i) &&
              after[copy].linked == CopiesOf(captured, spawned, refs)
  {
    hide AreAnswers, IsPlan, OneShot, Replay, LinkImage, CopiesOf, InsideRefs, IndexOf, Spawned, PlacedNoLater;
    if !plan.opts.invulnerable {
      PastedFloorIsImage(w, captured, box, name, utc, author, groupsOf, plan, answers, target, i);
    }
    SpawnedMembers(plan, answers);
    OneShotLeaves(groupsOf, plan, answers, target);
    ImageIsCopies(w, captured, box.lo, Spawned(plan, answers), i);
    DictionaryIsExact(w, captured, box.lo, i);
  }

  /** The same in pairs: two copies are linked exactly as often as their distinct originals. */
  lemma PastedPairsAreImage(
    w: Actors, captured: seq<ActorId>, box: Box, name: string, utc: string, author: string,
    groupsOf: string -> set<Group>, plan: Plan, answers: Answers, target: Actors, i: nat, j: nat)
    requires AreReadable(w, captured) && Distinct(captured) && i < |captured| && j < |captured|
    requires plan.bp == BlueprintOf(w, captured, box, name, utc, author) && !plan.opts.invulnerable
    requires AreAnswers(plan, answers) && |answers| == |plan.order| && AreNewSince(answers, 0, target)
    requires Spawned(plan, answers)[i].Some? && Spawned(plan, answers)[j].Some?
    ensures var spawned := Spawned(plan, answers);
            var after := Replay(groupsOf, target, OneShot(plan, answers));
            spawned[i].value in after &&
            multiset(after[spawned[i].value].linked)[spawned[j]]
            == if i == j then 0 else multiset(w[captured[i]].linked)[Some(captured[j])]
  {
    hide AreAnswers, IsPlan, OneShot, Replay, LinkImage, Distinct, DistinctSpawned, Spawned, ClassesOf, LinkIndices,
      FloorIndex, IsSpawnOf, FloorOf;
    SpawnedMembers(plan, answers);
    OneShotLeaves(groupsOf, plan, answers, target);
    ImageCountsReferences(w, captured, box.lo, Spawned(plan, answers), i, j);
  }

  lemma ImageCountsReferences(w: Actors, captured: seq<ActorId>, lo: Vec, spawned: Answers, i: nat, j: nat)
    requires AreReadable(w, captured) && Distinct(captured) && i < |captured| == |spawned| && j < |captured|
    requires spawned[j].Some? && DistinctSpawned(spawned)
    ensures var links := PiecesOf(w, captured, lo)[i].links;
            multiset(LinkImage(links, spawned, |links|))[spawned[j]]
            == if i == j then 0 else multiset(w[captured[i]].linked)[Some(captured[j])]
  {
    hide LinkImage, LinkIndices, Distinct, DistinctSpawned, FloorIndex, ClassesOf;
    var links := PiecesOf(w, captured, lo)[i].links;
    assert links[..|links|] == links;
    ImageCounts(links, spawned, |links|, j);
    LinksCountReferences(w[captured[i]].linked, captured, i, j);
  }

  lemma {:induction false} ImageCounts(links: seq<int>, spawned: Answers, m: nat, j: nat)
    requires m <= |links| && j < |spawned| && spawned[j].Some? && DistinctSpawned(spawned)
    ensures multiset(LinkImage(links, spawned, m))[spawned[j]] == multiset(links[..m])[j]
  {
    hide DistinctSpawned, EdgeImage;
    if m > 0 {
      ImageCounts(links, spawned, m - 1, j);
      EdgeImageCounts(links[m - 1], spawned, j);
      assert links[..m] == links[..m - 1] + [links[m - 1]];
    }
  }

  lemma EdgeImageCounts(target: int, spawned: Answers, j: nat)
    requires j < |spawned| && spawned[j].Some? && DistinctSpawned(spawned)
    ensures multiset(EdgeImage(target, spawned))[spawned[j]] == if target == j then 1 else 0
  {
    if 0 <= target < |spawned| && target != j {
      assert target < j || j < target;
    }
  }

  /**
   * The floor of a copy is the copy of its original's floor, when that was captured, is placed no
   * later and was spawned; in every other case the copy has no floor.
   */
  lemma PastedFloorIsImage(
    w: Actors, captured: seq<ActorId>, box: Box, name: string, utc: string, author: string,
    groupsOf: string -> set<Group>, plan: Plan, answers: Answers, target: Actors, i: nat)
    requires AreReadable(w, captured) && Distinct(captured) && i < |captured|
    requires plan.bp == BlueprintOf(w, captured, box, name, utc, author) && !plan.opts.invulnerable
    requires AreAnswers(plan, answers) && |answers| == |plan.order| && AreNewSince(answers, 0, target)
    requires Spawned(plan, answers)[i].Some?
    ensures var spawned := Spawned(plan, answers);
            var after := Replay(groupsOf, target, OneShot(plan, answers));
            spawned[i].value in after &&
            after[spawned[i].value].floor
            == CopiedFloor(w, captured, spawned, plan.order, i)
  {
    hide AreAnswers, IsPlan, OneShot, Replay, LinkImage, Spawned, IndexOf, IsSpawnOf, PlacedNoLater;
    OneShotLeaves(groupsOf, plan, answers, target);
    FloorIsItsPiece(w, captured, box.lo, i);
    var p := PiecesOf(w, captured, box.lo)[i];
    if p.floor >= 0 { IndexOfDistinct(captured, p.floor); }
  }

  /** Bottom-up placing is enough: a captured, strictly lower floor that was spawned is never lost. */
  lemma LowerFloorIsCopied(
    w: Actors, captured: seq<ActorId>, box: Box, name: string, utc: string, author: string,
    groupsOf: string -> set<Group>, plan: Plan, answers: Answers, target: Actors, i: nat, f: nat)
    requires AreReadable(w, captured) && Distinct(captured) && i < |captured| && f < |captured|
    requires plan.bp == BlueprintOf(w, captured, box, name, utc, author) && !plan.opts.invulnerable
    requires AreAnswers(plan, answers) && |answers| == |plan.order| && AreNewSince(answers, 0, target)
    requires w[captured[i]].floor == Some(captured[f])
    requires w[captured[f]].transform.value.loc.z < w[captured[i]].transform.value.loc.z
    requires Spawned(plan, answers)[i].Some? && Spawned(plan, answers)[f].Some?
    ensures var spawned := Spawned(plan, answers);
            var after := Replay(groupsOf, target, OneShot(plan, answers));
            spawned[i].value in after && after[spawned[i].value].floor == spawned[f]
  {
    hide AreAnswers, OneShot, Replay, Spawned, IndexOf, BlueprintOf;
    PastedFloorIsImage(w, captured, box, name, utc, author, groupsOf, plan, answers, target, i);
    IndexOfDistinct(captured, f);
    LowerIsPlacedFirst(w, captured, box, name, utc, author, plan, answers, i, f);
  }

  lemma LowerIsPlacedFirst(w: Actors, captured: seq<ActorId>, box: Box, name: string, utc: string, author: string,
                           plan: Plan, answers: Answers, i: nat, f: nat)
    requires AreReadable(w, captured) && i < |captured| && f < |captured|
    requires plan.bp == BlueprintOf(w, captured, box, name, utc, author) && AreAnswers(plan, answers)
    requires w[captured[f]].transform.value.loc.z < w[captured[i]].transform.value.loc.z
    ensures PlacedNoLater(plan.order, f, i) && captured[f] != captured[i]
  {
    hide IsPermutation, ClassesOf, LinkIndices, FloorIndex;
    var j := PositionOf(plan.order, f);
    var k := PositionOf(plan.order, i);
    StrictlyLowerComesFirst(plan.bp.pieces, plan.order, j, k);
  }

  /**
   * Whatever the turn, the yaw, the sink and the origin: the copy stands at the origin plus the turned
   * offset of its original from the capture corner, lowered by the sink; it keeps the original's pitch
   * and roll, and its yaw is the original's advanced by that of the paste.
   */
  lemma PastedAsTurned(
    w: Actors, captured: seq<ActorId>, box: Box, name: string, utc: string, author: string,
    groupsOf: string -> set<Group>, plan: Plan, answers: Answers, target: Actors, i: nat)
    requires AreReadable(w, captured) && Distinct(captured) && i < |captured|
    requires plan.bp == BlueprintOf(w, captured, box, name, utc, author)
    requires AreAnswers(plan, answers) && |answers| == |plan.order| && AreNewSince(answers, 0, target)
    requires Spawned(plan, answers)[i].Some?
    ensures var after := Replay(groupsOf, target, OneShot(plan, answers));
            var copy, was := Spawned(plan, answers)[i].value, w[captured[i]].transform.value;
            var o, c, s := plan.opts.origin, plan.opts.turn.c, plan.opts.turn.s;
            var dx, dy, dz := was.loc.x - box.lo.x, was.loc.y - box.lo.y, was.loc.z - box.lo.z;
            i < |Spawned(plan, answers)| && copy in after && after[copy].transform.Some? &&
            after[copy].transform.value.loc
            == Vec(o.x + (dx * c - dy * s), o.y + (dx * s + dy * c), o.z + dz - plan.opts.sink) &&
            after[copy].transform.value.rot.pitch == was.rot.pitch &&
            after[copy].transform.value.rot.yaw == was.rot.yaw + plan.opts.yaw &&
            after[copy].transform.value.rot.roll == was.rot.roll
  {
    hide AreAnswers, IsPlan, OneShot, Replay, Spawned, BlueprintOf, SpawnPoint, SpawnRotation;
    TurnedFromCorner(w, captured, box, name, utc, author, plan.opts, i);
    assert i < |Spawned(plan, answers)|;
    OneShotLeaves(groupsOf, plan, answers, target);
  }

  lemma TurnedFromCorner(w: Actors, captured: seq<ActorId>, box: Box, name: string, utc: string, author: string,
                         opts: PasteOptions, i: nat)
    requires AreReadable(w, captured) && i < |captured|
    ensures var pieces := BlueprintOf(w, captured, box, name, utc, author).pieces;
            var was, o, c, s := w[captured[i]].transform.value, opts.origin, opts.turn.c, opts.turn.s;
            var dx, dy, dz := was.loc.x - box.lo.x, was.loc.y - box.lo.y, was.loc.z - box.lo.z;
            |pieces| == |captured| &&
            SpawnPoint(opts, pieces[i])
            == Vec(o.x + (dx * c - dy * s), o.y + (dx * s + dy * c), o.z + dz - opts.sink) &&
            SpawnRotation(opts, pieces[i]) == Rot(was.rot.pitch, was.rot.yaw + opts.yaw, was.rot.roll)
  {
    hide ClassesOf, LinkIndices, IndexOf;
  }

  /**
   * So, pasted unturned and unsunk with its origin at the capture corner, every copy stands exactly
   * where its original stood, and is turned the same way.
   */
  lemma PastedInPlace(
    w: Actors, captured: seq<ActorId>, box: Box, name: string, utc: string, author: string,
    groupsOf: string -> set<Group>, plan: Plan, answers: Answers, target: Actors, i: nat)
    requires AreReadable(w, captured) && Distinct(captured) && i < |captured|
    requires plan.bp == BlueprintOf(w, captured, box, name, utc, author)
    requires plan.opts.origin == box.lo && plan.opts.turn == NO_TURN && plan.opts.yaw == 0.0 && plan.opts.sink == 0.0
    requires AreAnswers(plan, answers) && |answers| == |plan.order| && AreNewSince(answers, 0, target)
    requires Spawned(plan, answers)[i].Some?
    ensures var after := Replay(groupsOf, target, OneShot(plan, answers));
            Spawned(plan, answers)[i].value in after &&
            after[Spawned(plan, answers)[i].value].transform == w[captured[i]].transform
  {
    hide AreAnswers, IsPlan, OneShot, Replay, Spawned, BlueprintOf, SpawnPoint, SpawnRotation;
    BackInPlace(w, captured, box, name, utc, author, plan.opts, i);
    assert i < |Spawned(plan, answers)|;
    OneShotLeaves(groupsOf, plan, answers, target);
  }

  lemma BackInPlace(w: Actors, captured: seq<ActorId>, box: Box, name: string, utc: string, author: string,
                    opts: PasteOptions, i: nat)
    requires AreReadable(w, captured) && i < |captured|
    requires opts.origin == box.lo && opts.turn == NO_TURN && opts.yaw == 0.0 && opts.sink == 0.0
    ensures var pieces := BlueprintOf(w, captured, box, name, utc, author).pieces;
            var p := pieces[i];
            |pieces| == |captured| &&
            w[captured[i]].transform == Some(Transform(SpawnPoint(opts, p), SpawnRotation(opts, p)))
  {
    hide ClassesOf, LinkIndices, IndexOf, RotateAroundZ;
    NoTurnKeeps(Offset(BlueprintOf(w, captured, box, name, utc, author).pieces[i]));
  }

  /** What was captured is what a load of its save gives to the paste, unchanged. */
  lemma SavedCaptureLoads(
    w: Actors, captured: seq<ActorId>, box: Box, name: string, utc: string, author: string,
    files: Files, j: Json.Json)
    requires AreReadable(w, captured) && Distinct(captured) && FitsIndices(captured)
    requires IsBlueprintJson(j, BlueprintOf(w, captured, box, name, utc, author))
    requires files.parse(files.dump(j)) == Some(j) && Gzip.Lossless(files.codec, files.dump(j))
    requires PackedText(files, files.dump(j)).Some?
    ensures Loaded(files, PackedText(files, files.dump(j)), true)
            == Ok(BlueprintOf(w, captured, box, name, utc, author))
  {
    hide IsBlueprintJson, Loaded, PackedText, Gzip.Lossless, NormalBlueprint, TypedBlueprint, PiecesOf;
    CapturedIsNormal(w, captured, box, name, utc, author);
    SaveThenLoad(files, BlueprintOf(w, captured, box, name, utc, author), j);
  }

  // ----- undo gives the world back -----

  /** What an undo needs of a build, all of it known before the paste. */
  ghost predicate IsUndoable(groupsOf: string -> set<Group>, bp: Blueprint, opts: PasteOptions, target: Actors)
    requires ClassesInRange(bp)
  {
    opts.sink == 0.0 && IsSpaced(bp) &&
    (forall i :: 0 <= i < |bp.pieces| ==> InsideExtent(bp, bp.pieces[i])) &&
    (forall i :: 0 <= i < |bp.pieces| ==>
       ClassPath(bp, bp.pieces[i]) != "" && groupsOf(ClassPath(bp, bp.pieces[i])) != {}) &&
    (forall id, i :: id in target && 0 <= i < |bp.pieces| ==> !SharesBucket(bp, opts, target[id], i))
  }

  lemma PastedIsUnmoved(groupsOf: string -> set<Group>, plan: Plan, spawned: Answers, target: Actors, after: Actors)
    requires IsPlan(plan) && |spawned| == |plan.bp.pieces| && IsPasted(groupsOf, plan, spawned, target, after)
    requires ClassesInRange(plan.bp) && IsUndoable(groupsOf, plan.bp, plan.opts, target)
    ensures IsUnmoved(plan.bp, plan.opts, spawned, after)
  {
    hide IsPermutation, IsBottomUp, InsideExtent, SpawnPoint, IsSpaced, SharesBucket, LinkImage;
  }

  /** Taking away what the undo record finds leaves the world as it was before the paste. */
  lemma UndoRestoresWorld(groupsOf: string -> set<Group>, plan: Plan, spawned: Answers, diagonal: real, target: Actors,
                          after: Actors)
    requires IsPlan(plan) && |spawned| == |plan.bp.pieces| && IsDiagonal(plan.bp, diagonal)
    requires IsPasted(groupsOf, plan, spawned, target, after) && ClassesInRange(plan.bp) &&
             IsUndoable(groupsOf, plan.bp, plan.opts, target)
    ensures after - Doomed(RecordOf(plan.bp, plan.opts, spawned, diagonal), after) == target
  {
    hide IsPermutation, IsBottomUp, InsideExtent, IsSpaced, SharesBucket, LinkImage, IsSpawnOf, Doomed, RecordOf,
      IsTaken, IsUnmoved;
    PastedIsUnmoved(groupsOf, plan, spawned, target, after);
    forall id | id in after && Some(id) !in spawned
      ensures !IsTaken(plan.bp, plan.opts, spawned, diagonal, after[id])
    {
      if IsTaken(plan.bp, plan.opts, spawned, diagonal, after[id]) {
        TakenSharesBucket(plan.bp, plan.opts, spawned, diagonal, after[id]);
      }
    }
    UndoIsExact(plan.bp, plan.opts, spawned, diagonal, after);
  }

  /**
   * Run a paste to its end, at any rate, and undo it: unless every spawn failed, the world is
   * back to what it was.
   */
  method PasteThenUndo(plugin: Plugin, diagonal: real, written: Option<nat>, removed: bool)
    returns (destroyed: nat, error: Option<UndoError>)
    requires plugin.Valid() && plugin.job != null && plugin.job.phase == Placing
    requires plugin.job.cursor == 0 && plugin.job.log == [] && plugin.job.Alive(plugin.engine)
    requires IsDiagonal(plugin.job.bp, diagonal) && ClassesInRange(plugin.job.bp)
    requires IsUndoable(plugin.engine.groupsOf, plugin.job.bp, plugin.job.opts, plugin.engine.actors)
    modifies plugin, plugin.engine, plugin.job
    ensures plugin.Valid() && plugin.job == null
    ensures (exists i :: 0 <= i < |old(plugin.job).spawned| && old(plugin.job).spawned[i].Some?) ==>
              error == None && plugin.engine.actors == old(plugin.engine.actors)
  {
    hide IsPlan, OneShot, Replay, RecordOf, IsUndoable, Wanted, Doomed, IsDiagonal, ClassesInRange, StoredRecord,
      CeilDiv, IsPasted, Work, TicksFor, IsDestruction, Destructions, Spawned;
    var j := plugin.job;
    ghost var target := plugin.engine.actors;
    var ticks := plugin.RunToCompletion(diagonal, written);
    OneShotLeaves(plugin.engine.groupsOf, j.Plan(), j.answers, target);
    if exists i :: 0 <= i < |j.spawned| && j.spawned[i].Some? {
      ghost var i :| 0 <= i < |j.spawned| && j.spawned[i].Some?;
      assert plugin.last == RecordOf(j.bp, j.opts, j.spawned, diagonal);
      RecordHasItem(j.bp, j.opts, j.spawned, diagonal, i);
      UndoRestoresWorld(plugin.engine.groupsOf, j.Plan(), j.spawned, diagonal, target, plugin.engine.actors);
    }
    destroyed, error := plugin.UndoLastPaste(removed);
  }

  lemma RecordHasItem(bp: Blueprint, opts: PasteOptions, spawned: Answers, diagonal: real, i: nat)
    requires |bp.pieces| == |spawned| && ClassesInRange(bp) && i < |spawned| && spawned[i].Some?
    ensures var rec := RecordOf(bp, opts, spawned, diagonal);
            Usable(rec) == Some(rec) && Wanted(rec, |rec.items|) != map[]
  {
    var rec := RecordOf(bp, opts, spawned, diagonal);
    ItemsAreSpawnedPieces(bp, opts, spawned, |spawned|, ItemOf(opts, bp.pieces[i]));
    var k :| 0 <= k < |rec.items| && rec.items[k] == ItemOf(opts, bp.pieces[i]);
    SomeItemIsLast(rec, |rec.items|, BucketOf(ItemPos(rec.items[k])), k);
    WantedIsLast(rec, |rec.items|, BucketOf(ItemPos(rec.items[k])));
  }

  // ----- undo after a cancel -----

  /** Why an undo with this target gives up, if it does. */
  ghost function Refusal(target: Option<PasteRecord>): Option<UndoError> {
    if target.None? || Wanted(target.value, |target.value.items|) == map[] then Some(NothingToUndo) else None
  }

  /** Cancelling a running paste turns the next undo to the paste that finished last. */
  method CancelThenUndo(plugin: Plugin, removed: bool) returns (destroyed: nat, error: Option<UndoError>)
    requires plugin.Valid() && plugin.job != null && plugin.stored && plugin.finished.Some?
    requires FinishedRecord(plugin.finished.value).items != []
    modifies plugin, plugin.engine
    ensures plugin.Valid() && plugin.job == null
    ensures var rec, w := FinishedRecord(old(plugin.finished).value), old(plugin.engine.actors);
            error == Refusal(Some(rec)) && plugin.engine.actors == if error.None? then w - Doomed(rec, w) else w
  {
    hide StoredRecord, Wanted, Doomed, RecordOf, IsDestruction, Destructions;
    plugin.CancelPaste();
    plugin.UndoTargetsFinished();
    destroyed, error := plugin.UndoLastPaste(removed);
  }

  /** The record an undo works from when the last paste, of record `rec`, had or had not come to its end. */
  ghost function TargetAfter(files: Files, ended: bool, rec: PasteRecord, file: Option<Gzip.Bytes>)
    : Option<PasteRecord>
  {
    if ended && rec.items != [] then Some(rec) else StoredRecord(files, file)
  }

  /** It is the last paste's own exactly when that had ended with an item, or the file held the same already. */
  lemma TargetIsLastBegunIff(files: Files, ended: bool, rec: PasteRecord, before: Option<Gzip.Bytes>,
                             file: Option<Gzip.Bytes>)
    requires !ended ==> file == before
    ensures TargetAfter(files, ended, rec, file) == Some(rec)
            <==> rec.items != [] && (ended || StoredRecord(files, before) == Some(rec))
  {
    hide StoredRecord;
    if StoredRecord(files, file).Some? { StoredIsUsable(files, file); }
  }

  /**
   * Begin a paste, let some ticks go by, with or without a world, cancel whatever is left of it and
   * undo.  The undo works from this paste exactly when it had come to its end with a piece spawned,
   * unless the file already held the very same record.  Otherwise it works from what the file
   * holds, if that is anything, and the pieces placed so far are in the world when it is called.
   * `running` says whether there was anything to cancel.
   */
  method PasteForAWhileThenUndo(plugin: Plugin, bp: Blueprint, opts: PasteOptions, loads: string -> bool,
                                world: seq<bool>, diagonal: real, written: Option<nat>, removed: bool)
    returns (begun: Option<BeginError>, ghost j: PasteJob?, ghost shown: Actors, running: bool,
             error: Option<UndoError>)
    requires plugin.Valid() && plugin.job == null && ClassesInRange(bp) && IsDiagonal(bp, diagonal)
    modifies plugin, plugin.engine
    ensures plugin.Valid() && plugin.job == null
    ensures begun.Some? ==> plugin.engine.actors == shown == old(plugin.engine.actors)
    ensures begun.None? ==>
              j != null && fresh(j) && j.bp == bp && j.opts == opts && |j.spawned| == |bp.pieces| &&
              var rec := RecordOf(bp, opts, j.spawned, diagonal);
              var file := if j.AtEnd() then Persisted(plugin.files, old(plugin.undoFile), rec, written)
                          else old(plugin.undoFile);
              var target := TargetAfter(plugin.files, j.AtEnd(), rec, file);
              (target == Some(rec) <==>
               rec.items != [] && (j.AtEnd() || StoredRecord(plugin.files, old(plugin.undoFile)) == Some(rec))) &&
              (running ==> !j.AtEnd()) && (!running && (forall k :: 0 <= k < |world| ==> world[k]) ==> j.AtEnd()) &&
              (!j.AtEnd() && old(plugin.undoFile).None? ==> error == Some(NothingToUndo)) &&
              (!j.AtEnd() ==> forall i :: 0 <= i < |j.spawned| && j.spawned[i].Some? ==> j.spawned[i].value in shown) &&
              error == Refusal(target) &&
              plugin.engine.actors == if error.None? then shown - Doomed(target.value, shown) else shown
  {
    hide StoredRecord, Wanted, Doomed, RecordOf, IsDestruction, Destructions, IsPlan, IsPlacement, PlaceTrace,
      LinksSoFar, Work, WorkDone, Persisted, IsDiagonal, ClassesInRange, IsWhole, SurvivesText, TypedRecord,
      PasteJob.AtEnd, PasteJob.Valid;
    ghost var file0 := plugin.undoFile;
    j, shown, running, error := null, plugin.engine.actors, false, None;
    begun := plugin.BeginPaste(bp, opts, loads);
    if begun.Some? { return; }
    j := plugin.job;
    j.RunningIsNotAtEnd();
    for k := 0 to |world|
      invariant plugin.Valid() && (plugin.job == null || plugin.job == j)
      invariant |j.spawned| == |bp.pieces|
      invariant (forall i :: 0 <= i < k ==> world[i]) && plugin.job == null ==> j.AtEnd()
      invariant !j.AtEnd() ==> j.Alive(plugin.engine) && !plugin.last.valid && plugin.undoFile == file0
      invariant j.AtEnd() ==> plugin.job == null && plugin.last == RecordOf(bp, opts, j.spawned, diagonal) &&
                              plugin.undoFile == Persisted(plugin.files, file0, plugin.last, written)
    {
      plugin.TickPaste(world[k], diagonal, written);
    }
    running := plugin.job != null;
    plugin.CancelPaste();
    NoFileNoRecord(plugin.files);
    shown := plugin.engine.actors;
    ghost var rec := RecordOf(bp, opts, j.spawned, diagonal);
    RecordIsValid(bp, opts, j.spawned, diagonal);
    TargetIsLastBegunIff(plugin.files, j.AtEnd(), rec, file0, plugin.undoFile);
    assert plugin.UndoTarget() == TargetAfter(plugin.files, j.AtEnd(), rec, plugin.undoFile);
    var _, e := plugin.UndoLastPaste(removed);
    error := e;
  }
}
