/**
 * The previews waiting for an answer (`g_pending` in src/Preview.cpp): showing one drops four corner
 * markers, clearing or confirming it takes away those still within reach.
 */
module Pending {
  import opened Wrappers
  import opened Geometry
  import opened Model
  import opened PasteSpec
  import opened Preview
  import opened Terrain
  import opened World

  datatype PendingPaste = PendingPaste(active: bool, bp: Blueprint, opts: PasteOptions, markers: seq<ActorId>)

  datatype PreviewError = NoWorld | BlueprintEmpty | NothingPreviewed

  const REACH: real := 100000.0

  function SearchArea(opts: PasteOptions): Sphere {
    Sphere(opts.origin, Square(REACH))
  }

  /** The markers that a search around the origin is sure to find again. */
  function Reachable(w: Actors, p: PendingPaste): set<ActorId> {
    set m | m in p.markers && m in w && InRange(w[m], SearchArea(p.opts), STRUCTURES)
  }

  /** Only own structure markers are gone, and all of them that were within reach; all else is as it was. */
  ghost predicate IsTidied(w: Actors, after: Actors, p: PendingPaste) {
    after.Keys <= w.Keys && (forall id :: id in after ==> after[id] == w[id]) &&
    (forall id :: id in w && id !in after ==> id in p.markers && STRUCTURES in w[id].groups) &&
    (forall id :: id in w && id !in after && w[id].transform.Some? ==> id in Reachable(w, p)) &&
    Reachable(w, p) !! after.Keys
  }

  function Hit(markers: seq<ActorId>, found: seq<Option<ActorId>>, n: nat): set<ActorId>
    requires n <= |markers|
  {
    set j | 0 <= j < n && Some(markers[j]) in found :: markers[j]
  }

  lemma NothingToTidy(w: Actors, p: PendingPaste)
    requires p.markers == []
    ensures IsTidied(w, w, p)
  {
  }

  lemma HitsAreTidied(w: Actors, p: PendingPaste, found: seq<Option<ActorId>>)
    requires IsQueryAnswer(w, SearchArea(p.opts), STRUCTURES, found)
    ensures IsTidied(w, w - Hit(p.markers, found, |p.markers|), p)
  {
    hide InSphere, SearchArea;
    var after := w - Hit(p.markers, found, |p.markers|);
    forall id | id in w && id !in after
      ensures id in p.markers && STRUCTURES in w[id].groups && (w[id].transform.Some? ==> id in Reachable(w, p))
    {
      var i :| 0 <= i < |found| && found[i] == Some(id);
    }
    forall id | id in Reachable(w, p)
      ensures id !in after
    {
      var j :| 0 <= j < |p.markers| && p.markers[j] == id;
    }
  }

  // ----- the markers -----

  /** What the source would rather mark a corner with than a piece of the build. */
  const CANDIDATES: seq<string> := [
    "Blueprint'/Game/PrimalEarth/Structures/StandingTorch.StandingTorch'",
    "Blueprint'/Game/PrimalEarth/Structures/Wooden/Wood_Pillar.Wood_Pillar'"]

  /** The first of these classes that loads on this map. */
  function FirstLoading(paths: seq<string>, loads: string -> bool): Option<string> {
    if paths == [] then None else if loads(paths[0]) then Some(paths[0]) else FirstLoading(paths[1..], loads)
  }

  function MarkerClass(bp: Blueprint, loads: string -> bool): Option<string> {
    FirstLoading(CANDIDATES + bp.classes, loads)
  }

  lemma {:induction false} FirstLoadingIsFirst(paths: seq<string>, loads: string -> bool, k: nat)
    requires k <= |paths| && forall i :: 0 <= i < k ==> !loads(paths[i])
    ensures k < |paths| && loads(paths[k]) ==> FirstLoading(paths, loads) == Some(paths[k])
    ensures k == |paths| ==> FirstLoading(paths, loads) == None
  {
    if k > 0 { FirstLoadingIsFirst(paths[1..], loads, k - 1); }
  }

  method ResolveMarkerClass(bp: Blueprint, loads: string -> bool) returns (marker: Option<string>)
    ensures marker == MarkerClass(bp, loads)
  {
    var paths := CANDIDATES + bp.classes;
    for k := 0 to |paths|
      invariant forall i :: 0 <= i < k ==> !loads(paths[i])
    {
      if loads(paths[k]) {
        FirstLoadingIsFirst(paths, loads, k);
        return Some(paths[k]);
      }
    }
    FirstLoadingIsFirst(paths, loads, |paths|);
    marker := None;
  }

  /** Where the marker of corner `i` goes: on the ground there, or at the origin's height. */
  function MarkerSpot(bp: Blueprint, opts: PasteOptions, ground: Ground, i: nat): Vec
    requires i < 4
  {
    var at := WorldCorner(bp, opts, i);
    var g := ground(at.x, at.y);
    if g.Some? then at.(z := g.value) else at
  }

  /** In the order (0, 0), (X, 0), (X, Y), (0, Y): over the turned corner, on the ground there if any. */
  lemma MarkerSpotIs(bp: Blueprint, opts: PasteOptions, ground: Ground, i: nat, sx: real, sy: real)
    requires i < 4
    requires sx == (if i == 1 || i == 2 then bp.sizeX else 0.0) && sy == if i >= 2 then bp.sizeY else 0.0
    ensures var o, c, s := opts.origin, opts.turn.c, opts.turn.s;
            var x, y := o.x + (sx * c - sy * s), o.y + (sx * s + sy * c);
            MarkerSpot(bp, opts, ground, i) == Vec(x, y, if ground(x, y).Some? then ground(x, y).value else o.z)
  {
    hide RotateAroundZ;
    TurnedBy(opts, sx, sy);
    assert Corner(bp, i) == Vec(sx, sy, 0.0);
  }

  /** The marker as it was spawned over corner `i`. */
  predicate IsMarkerOf(a: Actor, path: string, bp: Blueprint, opts: PasteOptions, ground: Ground, groups: set<Group>,
                       i: nat)
    requires i < 4
  {
    a.path == path && a.groups == groups &&
    a.transform == Some(Transform(MarkerSpot(bp, opts, ground, i), Rot(0.0, opts.yaw, 0.0)))
  }

  /** The actors that came of the four spawns, in order. */
  function Made(made: seq<Option<ActorId>>): seq<ActorId> {
    if made == [] then []
    else
      var n := |made| - 1;
      if made[n].Some? then Made(made[..n]) + [made[n].value] else Made(made[..n])
  }

  lemma {:induction false} MadeMembers(made: seq<Option<ActorId>>, id: ActorId)
    ensures id in Made(made) <==> Some(id) in made
  {
    if made != [] {
      MadeMembers(made[..|made| - 1], id);
      assert made == made[..|made| - 1] + [made[|made| - 1]];
    }
  }

  lemma MadeOneMore(made: seq<Option<ActorId>>, m: Option<ActorId>)
    ensures Made(made + [m]) == if m.Some? then Made(made) + [m.value] else Made(made)
  {
    assert (made + [m])[..|made|] == made;
  }

  /**
   * After the spawns at the first corners, answered by `made`: each marker is a new actor at its
   * spot, and nothing else in the world has changed.
   */
  ghost predicate AreDropped(w: Actors, after: Actors, made: seq<Option<ActorId>>, path: string, bp: Blueprint,
                             opts: PasteOptions, ground: Ground, groups: set<Group>)
  {
    |made| <= 4 && (forall id :: id in after <==> id in w || Some(id) in made) &&
    (forall id :: id in w ==> after[id] == w[id] && Some(id) !in made) &&
    forall i :: 0 <= i < |made| && made[i].Some? ==> IsMarkerOf(after[made[i].value], path, bp, opts, ground, groups, i)
  }

  /** The search that clears a preview will find the marker of corner `i`; known before it is shown. */
  predicate IsWithinSearch(bp: Blueprint, opts: PasteOptions, ground: Ground, groups: set<Group>, i: nat)
    requires i < 4
  {
    STRUCTURES in groups && InSphere(MarkerSpot(bp, opts, ground, i), SearchArea(opts))
  }

  /** Showing and clearing leaves the world as it was if and only if every spawned marker's spot is searched. */
  lemma RestoredIffSearched(w: Actors, shown: Actors, after: Actors, p: PendingPaste, made: seq<Option<ActorId>>,
                            path: string, ground: Ground, groups: set<Group>)
    requires AreDropped(w, shown, made, path, p.bp, p.opts, ground, groups) && p.markers == Made(made)
    requires IsTidied(shown, after, p)
    ensures after == w <==>
            forall i :: 0 <= i < |made| && made[i].Some? ==> IsWithinSearch(p.bp, p.opts, ground, groups, i)
  {
    hide MarkerSpot, SearchArea, InSphere, Made;
    forall id: ActorId
      ensures id in p.markers <==> Some(id) in made
    {
      MadeMembers(made, id);
    }
    forall i | 0 <= i < |made| && made[i].Some?
      ensures made[i].value in after <==> !IsWithinSearch(p.bp, p.opts, ground, groups, i)
    {
      assert made[i] in made && Some(made[i].value) == made[i];
      assert IsMarkerOf(shown[made[i].value], path, p.bp, p.opts, ground, groups, i);
      assert made[i].value in p.markers;
    }
    forall id | id in w
      ensures id in after && after[id] == w[id]
    {
      assert id !in p.markers;
    }
    if forall i :: 0 <= i < |made| && made[i].Some? ==> IsWithinSearch(p.bp, p.opts, ground, groups, i) {
      forall id | id in after
        ensures id in w
      {
        assert id in w || Some(id) in made;
      }
    }
  }

  /** The search knows no turn: a marker is within it by the corner's distance and its height alone. */
  lemma WithinSearchIff(bp: Blueprint, opts: PasteOptions, ground: Ground, groups: set<Group>, i: nat)
    requires i < 4
    ensures IsWithinSearch(bp, opts, ground, groups, i) <==>
            STRUCTURES in groups &&
            Square(Corner(bp, i).x) + Square(Corner(bp, i).y)
            + Square(MarkerSpot(bp, opts, ground, i).z - opts.origin.z) <= Square(100000.0)
  {
    hide RotateAroundZ, Square;
    var spot, r := MarkerSpot(bp, opts, ground, i), RotateAroundZ(Corner(bp, i), opts.turn);
    RotationIsIsometry(Corner(bp, i), opts.turn);
    assert spot.x - opts.origin.x == r.x && spot.y - opts.origin.y == r.y;
  }

  /** A corner farther out than the search reaches keeps its marker, whatever the turn and the ground. */
  lemma FarMarkerStays(bp: Blueprint, opts: PasteOptions, ground: Ground, groups: set<Group>, i: nat)
    requires i < 4 && Square(Corner(bp, i).x) + Square(Corner(bp, i).y) > Square(100000.0)
    ensures !IsWithinSearch(bp, opts, ground, groups, i)
  {
    hide Square, IsWithinSearch;
    WithinSearchIff(bp, opts, ground, groups, i);
    SquareIsNotNegative(MarkerSpot(bp, opts, ground, i).z - opts.origin.z);
  }

  /** A marker class that STRUCTURES does not list: clearing the preview leaves the world as it was shown. */
  lemma CoreMarkersStay(w: Actors, shown: Actors, after: Actors, p: PendingPaste, made: seq<Option<ActorId>>,
                        path: string, ground: Ground, groups: set<Group>)
    requires AreDropped(w, shown, made, path, p.bp, p.opts, ground, groups) && p.markers == Made(made)
    requires STRUCTURES !in groups && IsTidied(shown, after, p)
    ensures after == shown
  {
    hide MarkerSpot, SearchArea, InSphere, Made;
    forall id | id in shown
      ensures id in after
    {
      MadeMembers(made, id);
    }
  }

  class Previews {
    var pending: map<nat, PendingPaste>

    constructor ()
      ensures pending == map[]
    {
      pending := map[];
    }

    predicate HasPreview(admin: nat)
      reads this
    {
      admin in pending && pending[admin].active
    }

    /** Destroys what the search finds of the admin's own markers, and forgets the preview. */
    method ClearPreview(engine: Engine, admin: nat, worldPresent: bool)
      requires engine.Valid()
      modifies this, engine
      ensures engine.Valid() && pending == old(pending) - {admin}
      ensures if admin in old(pending) && worldPresent
              then IsTidied(old(engine.actors), engine.actors, old(pending)[admin])
              else engine.actors == old(engine.actors)
    {
      hide InSphere, IsTidied;
      if admin !in pending {
        assert pending == pending - {admin};
        return;
      }
      var p := pending[admin];
      if p.markers == [] {
        NothingToTidy(engine.actors, p);
      } else if worldPresent {
        ghost var w := engine.actors;
        var found := engine.GetAllActorsInRange(SearchArea(p.opts), STRUCTURES);
        for k := 0 to |p.markers|
          invariant engine.Valid() && pending == old(pending)
          invariant engine.actors == w - Hit(p.markers, found, k)
        {
          if Some(p.markers[k]) in found {
            engine.DestroyActor(p.markers[k]);
          }
        }
        HitsAreTidied(w, p, found);
      }
      pending := pending - {admin};
    }

    /** The last part of a preview: the markers, one over each corner that could be spawned. */
    method DropMarkers(engine: Engine, marker: Option<string>, bp: Blueprint, opts: PasteOptions, ground: Ground)
      returns (markers: seq<ActorId>, ghost made: seq<Option<ActorId>>)
      requires engine.Valid()
      modifies engine
      ensures engine.Valid() && markers == Made(made)
      ensures marker.None? ==> made == [] && engine.actors == old(engine.actors)
      ensures marker.Some? ==>
                |made| == 4 && AreDropped(old(engine.actors), engine.actors, made, marker.value, bp, opts, ground,
                                          engine.groupsOf(marker.value))
    {
      hide WorldCorner, AreDropped;
      markers, made := [], [];
      if marker.None? { return; }
      NoneDropped(engine.actors, marker.value, bp, opts, ground, engine.groupsOf(marker.value));
      for i := 0 to 4
        invariant engine.Valid() && |made| == i && markers == Made(made)
        invariant AreDropped(old(engine.actors), engine.actors, made, marker.value, bp, opts, ground,
                             engine.groupsOf(marker.value))
      {
        ghost var before := engine.actors;
        var at := WorldCorner(bp, opts, i);
        var g := ground(at.x, at.y);
        if g.Some? { at := at.(z := g.value); }
        var spawned := engine.SpawnActorInWorld(marker.value, at, Rot(0.0, opts.yaw, 0.0));
        OneMoreDropped(old(engine.actors), before, made, marker.value, bp, opts, ground, engine.groupsOf, spawned);
        MadeOneMore(made, spawned);
        made := made + [spawned];
        if spawned.Some? {
          markers := markers + [spawned.value];
        }
      }
    }

    /** Any preview the admin had gives way first. */
    method ShowPreview(engine: Engine, admin: nat, bp: Blueprint, opts: PasteOptions, loads: string -> bool,
                       ground: Ground, worldPresent: bool)
      returns (error: Option<PreviewError>, ghost cleared: Actors, ghost made: seq<Option<ActorId>>)
      requires engine.Valid()
      modifies this, engine
      ensures engine.Valid()
      ensures error == if !worldPresent then Some(NoWorld) else if bp.pieces == [] then Some(BlueprintEmpty) else None
      ensures error.Some? ==> pending == old(pending) && engine.actors == old(engine.actors)
      ensures error.None? ==>
                HasPreview(admin) && pending[admin] == PendingPaste(true, bp, opts, Made(made)) &&
                pending - {admin} == old(pending) - {admin} &&
                (if admin in old(pending) then IsTidied(old(engine.actors), cleared, old(pending)[admin])
                 else cleared == old(engine.actors)) &&
                match MarkerClass(bp, loads)
                case None => made == [] && engine.actors == cleared
                case Some(path) =>
                  |made| == 4 &&
                  AreDropped(cleared, engine.actors, made, path, bp, opts, ground, engine.groupsOf(path))
    {
      hide IsTidied, AreDropped, MarkerClass, Made;
      cleared, made := engine.actors, [];
      if !worldPresent { return Some(NoWorld), cleared, made; }
      if bp.pieces == [] { return Some(BlueprintEmpty), cleared, made; }
      ClearPreview(engine, admin, true);
      cleared := engine.actors;
      var marker := ResolveMarkerClass(bp, loads);
      var markers;
      markers, made := DropMarkers(engine, marker, bp, opts, ground);
      pending := pending[admin := PendingPaste(true, bp, opts, markers)];
      error := None;
    }

    /** Hands back exactly what was previewed, and only once. */
    method ConfirmPreview(engine: Engine, admin: nat, worldPresent: bool)
      returns (answer: Result<(Blueprint, PasteOptions), PreviewError>)
      requires engine.Valid()
      modifies this, engine
      ensures engine.Valid() && !HasPreview(admin)
      ensures answer == if old(HasPreview(admin)) then Ok((old(pending)[admin].bp, old(pending)[admin].opts))
                        else Err(NothingPreviewed)
      ensures answer.Ok? ==> pending == old(pending) - {admin} &&
                             if worldPresent then IsTidied(old(engine.actors), engine.actors, old(pending)[admin])
                             else engine.actors == old(engine.actors)
      ensures answer.Err? ==> pending == old(pending) && engine.actors == old(engine.actors)
    {
      hide IsTidied;
      if !HasPreview(admin) { return Err(NothingPreviewed); }
      var p := pending[admin];
      ClearPreview(engine, admin, worldPresent);
      answer := Ok((p.bp, p.opts));
    }

    /**
     * Shown and confirmed at once: the world is as before exactly when every corner whose marker
     * the engine made, by `made`, is one the search covers.
     */
    method ShowThenConfirm(engine: Engine, admin: nat, bp: Blueprint, opts: PasteOptions, loads: string -> bool,
                           ground: Ground)
      returns (answer: Result<(Blueprint, PasteOptions), PreviewError>, ghost made: seq<Option<ActorId>>)
      requires engine.Valid() && admin !in pending && bp.pieces != []
      modifies this, engine
      ensures engine.Valid() && answer == Ok((bp, opts)) && pending == old(pending)
      ensures match MarkerClass(bp, loads)
              case None => engine.actors == old(engine.actors)
              case Some(path) =>
                |made| == 4 &&
                (engine.actors == old(engine.actors) <==>
                 forall i :: 0 <= i < 4 && made[i].Some? ==> IsWithinSearch(bp, opts, ground, engine.groupsOf(path), i))
    {
      hide IsWithinSearch, SearchArea, AreDropped, IsTidied, MarkerClass, Made;
      ghost var before := pending;
      var _, cleared, m := ShowPreview(engine, admin, bp, opts, loads, ground, true);
      made := m;
      ghost var shown, p := engine.actors, pending[admin];
      answer := ConfirmPreview(engine, admin, true);
      assert pending == before by { assert before - {admin} == before; }
      match MarkerClass(bp, loads)
      case None => NothingLost(shown, engine.actors, p);
      case Some(path) =>
        RestoredIffSearched(cleared, shown, engine.actors, p, made, path, ground, engine.groupsOf(path));
    }
  }

  lemma NothingLost(w: Actors, after: Actors, p: PendingPaste)
    requires IsTidied(w, after, p) && p.markers == Made([])
    ensures after == w
  {
  }

  lemma NoneDropped(w: Actors, path: string, bp: Blueprint, opts: PasteOptions, ground: Ground, groups: set<Group>)
    ensures AreDropped(w, w, [], path, bp, opts, ground, groups) && Made([]) == []
  {
  }

  lemma OneMoreDropped(w: Actors, mid: Actors, made: seq<Option<ActorId>>, path: string, bp: Blueprint,
                       opts: PasteOptions, ground: Ground, groupsOf: string -> set<Group>, spawned: Option<ActorId>)
    requires |made| < 4 && AreDropped(w, mid, made, path, bp, opts, ground, groupsOf(path))
    requires spawned.Some? ==> spawned.value !in mid
    ensures AreDropped(w,
                       Step(groupsOf, mid,
                            SpawnAttempt(path, MarkerSpot(bp, opts, ground, |made|), Rot(0.0, opts.yaw, 0.0), spawned)),
                       made + [spawned], path, bp, opts, ground, groupsOf(path))
  {
    hide MarkerSpot, IsMarkerOf;
    var more := made + [spawned];
    forall id: ActorId
      ensures Some(id) in more <==> Some(id) in made || spawned == Some(id)
    {
    }
    var after := Step(groupsOf, mid,
                      SpawnAttempt(path, MarkerSpot(bp, opts, ground, |made|), Rot(0.0, opts.yaw, 0.0), spawned));
    forall i | 0 <= i < |made| && made[i].Some?
      ensures more[i] == made[i] && after[made[i].value] == mid[made[i].value]
    {
      assert Some(made[i].value) in made;
    }
    if spawned.Some? {
      assert more[|made|] == spawned;
      NewMarker(bp, opts, ground, groupsOf, path, |made|);
    }
  }

  lemma NewMarker(bp: Blueprint, opts: PasteOptions, ground: Ground, groupsOf: string -> set<Group>, path: string,
                  i: nat)
    requires i < 4
    ensures IsMarkerOf(Actor(path, Some(Transform(MarkerSpot(bp, opts, ground, i), Rot(0.0, opts.yaw, 0.0))), [], None,
                             groupsOf(path)), path, bp, opts, ground, groupsOf(path), i)
  {
  }
}
