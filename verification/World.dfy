/**
 * The engine as the plugin sees it: actors under identities that are never reused, the few calls
 * the plugin makes, and the order in which it makes them.  Method bodies only witness that the
 * contracts can be met; nothing relies on more than the contracts.
 */
module World {
  import opened Wrappers
  import opened Geometry

  type ActorId = nat

  /** The two octree groups that hold structures. */
  datatype Group = STRUCTURES | STRUCTURES_CORE

  datatype Transform = Transform(loc: Vec, rot: Rot)

  /** `path` is empty when the blueprint path of the actor's class cannot be resolved. */
  datatype Actor = Actor(
    path: string,
    transform: Option<Transform>,
    linked: seq<Option<ActorId>>,
    floor: Option<ActorId>,
    groups: set<Group>)

  type Actors = map<ActorId, Actor>

  /** A call that changes the world, with the answer the engine gave. */
  datatype Event =
    | SpawnAttempt(path: string, loc: Vec, rot: Rot, made: Option<ActorId>)
    | Finalize(actor: ActorId, team: int, ownerId: int, floor: Option<ActorId>)
    | Link(from: ActorId, to: ActorId)
    | Destroy(actor: ActorId)

  predicate InRange(a: Actor, s: Sphere, g: Group) {
    g in a.groups && a.transform.Some? && InSphere(a.transform.value.loc, s)
  }

  /** What an octree query may answer: every readable actor in range, each at most once. */
  ghost predicate IsQueryAnswer(actors: Actors, s: Sphere, g: Group, found: seq<Option<ActorId>>) {
    (forall id :: id in actors && InRange(actors[id], s, g) ==> Some(id) in found) &&
    (forall i :: 0 <= i < |found| && found[i].Some? ==>
       found[i].value in actors && g in actors[found[i].value].groups &&
       (actors[found[i].value].transform.Some? ==> InRange(actors[found[i].value], s, g))) &&
    (forall i, j :: 0 <= i < j < |found| && found[i].Some? ==> found[i] != found[j])
  }

  /** The world after one event; `groupsOf` says which octree groups a class lives in. */
  function Step(groupsOf: string -> set<Group>, w: Actors, e: Event): Actors {
    match e
    case SpawnAttempt(path, loc, rot, made) =>
      if made.None? then w
      else w[made.value := Actor(path, Some(Transform(loc, rot)), [], None, groupsOf(path))]
    case Finalize(actor, _, _, floor) =>
      if actor !in w then w else w[actor := w[actor].(floor := floor)]
    case Link(from, to) =>
      if from !in w then w else w[from := w[from].(linked := w[from].linked + [Some(to)])]
    case Destroy(actor) => w - {actor}
  }

  function Replay(groupsOf: string -> set<Group>, w: Actors, events: seq<Event>): Actors {
    if events == [] then w
    else Step(groupsOf, Replay(groupsOf, w, events[..|events| - 1]), events[|events| - 1])
  }

  lemma ReplayOne(groupsOf: string -> set<Group>, w: Actors, events: seq<Event>, e: Event)
    ensures Replay(groupsOf, w, events + [e]) == Step(groupsOf, Replay(groupsOf, w, events), e)
  {
    assert (events + [e])[..|events|] == events;
  }

  lemma ReplayNone(groupsOf: string -> set<Group>, w: Actors)
    ensures Replay(groupsOf, w, []) == w
  {
  }

  lemma ReplaySingle(groupsOf: string -> set<Group>, w: Actors, e: Event)
    ensures Replay(groupsOf, w, [e]) == Step(groupsOf, w, e)
  {
    ReplayOne(groupsOf, w, [], e);
    assert [] + [e] == [e];
  }

  lemma {:induction false} ReplayAppend(groupsOf: string -> set<Group>, w: Actors, a: seq<Event>, b: seq<Event>)
    ensures Replay(groupsOf, w, a + b) == Replay(groupsOf, Replay(groupsOf, w, a), b)
  {
    if b == [] {
      assert a + b == a;
    } else {
      var n := |b| - 1;
      ReplayAppend(groupsOf, w, a, b[..n]);
      assert a + b == (a + b[..n]) + [b[n]];
      ReplayOne(groupsOf, w, a + b[..n], b[n]);
    }
  }

  /** Replaying a log that grew from `log0` over `before`. */
  lemma ExtendReplay(groupsOf: string -> set<Group>, w: Actors, log0: seq<Event>, before: seq<Event>, log: seq<Event>)
    requires log0 <= before <= log
    ensures log[|log0|..] == before[|log0|..] + log[|before|..]
    ensures Replay(groupsOf, w, log[|log0|..])
            == Replay(groupsOf, Replay(groupsOf, w, before[|log0|..]), log[|before|..])
  {
    ReplayAppend(groupsOf, w, before[|log0|..], log[|before|..]);
  }

  lemma SetIsAnswer(actors: Actors, s: Sphere, g: Group, all: set<ActorId>, found: seq<Option<ActorId>>)
    requires forall id :: id in all <==> id in actors && InRange(actors[id], s, g)
    requires forall id :: id in all ==> Some(id) in found
    requires forall i :: 0 <= i < |found| ==> found[i].Some? && found[i].value in all
    requires forall i, j :: 0 <= i < j < |found| ==> found[i] != found[j]
    ensures IsQueryAnswer(actors, s, g, found)
  {
    hide InSphere;
  }

  class Engine {
    const groupsOf: string -> set<Group>
    var actors: Actors
    var nextId: nat
    ghost var trace: seq<Event>

    ghost predicate Valid()
      reads this
    {
      forall id :: id in actors ==> id < nextId
    }

    constructor (groupsOf: string -> set<Group>)
      ensures Valid() && actors == map[] && trace == [] && this.groupsOf == groupsOf
    {
      this.groupsOf := groupsOf;
      actors, nextId, trace := map[], 0, [];
    }

    /** May fail.  A new actor gets an identity no actor had before. */
    method SpawnActorInWorld(path: string, loc: Vec, rot: Rot) returns (made: Option<ActorId>)
      requires Valid()
      modifies this
      ensures Valid()
      ensures trace == old(trace) + [SpawnAttempt(path, loc, rot, made)]
      ensures actors == Step(groupsOf, old(actors), SpawnAttempt(path, loc, rot, made))
      ensures made.Some? ==> made.value !in old(actors)
    {
      if * {
        made := None;
      } else {
        made := Some(nextId);
        actors := actors[nextId := Actor(path, Some(Transform(loc, rot)), [], None, groupsOf(path))];
        nextId := nextId + 1;
      }
      trace := trace + [SpawnAttempt(path, loc, rot, made)];
    }

    /** `floor` is the structure a mounted item is placed on. */
    method NonPlayerFinalStructurePlacement(actor: ActorId, team: int, ownerId: int, floor: Option<ActorId>)
      requires Valid() && actor in actors && (floor.Some? ==> floor.value in actors)
      modifies this
      ensures Valid()
      ensures trace == old(trace) + [Finalize(actor, team, ownerId, floor)]
      ensures actors == Step(groupsOf, old(actors), Finalize(actor, team, ownerId, floor))
    {
      actors := actors[actor := actors[actor].(floor := floor)];
      trace := trace + [Finalize(actor, team, ownerId, floor)];
    }

    method LinkStructure(from: ActorId, to: ActorId)
      requires Valid() && from in actors && to in actors
      modifies this
      ensures Valid()
      ensures trace == old(trace) + [Link(from, to)]
      ensures actors == Step(groupsOf, old(actors), Link(from, to))
    {
      actors := actors[from := actors[from].(linked := actors[from].linked + [Some(to)])];
      trace := trace + [Link(from, to)];
    }

    /** A second call for an actor that is already gone changes nothing. */
    method DestroyActor(actor: ActorId)
      requires Valid()
      modifies this
      ensures Valid()
      ensures trace == old(trace) + [Destroy(actor)]
      ensures actors == Step(groupsOf, old(actors), Destroy(actor))
    {
      actors := actors - {actor};
      trace := trace + [Destroy(actor)];
    }

    method GetAllActorsInRange(s: Sphere, g: Group) returns (found: seq<Option<ActorId>>)
      ensures IsQueryAnswer(actors, s, g, found)
    {
      hide InSphere, InRange;
      var todo := set id | id in actors && InRange(actors[id], s, g);
      ghost var all := todo;
      found := [];
      while todo != {}
        invariant todo <= all
        invariant forall id :: id in all ==> id in todo || Some(id) in found
        invariant forall i :: 0 <= i < |found| ==> found[i].Some? && found[i].value in all - todo
        invariant forall i, j :: 0 <= i < j < |found| ==> found[i] != found[j]
        decreases |todo|
      {
        var id :| id in todo;
        todo := todo - {id};
        found := found + [Some(id)];
      }
      SetIsAnswer(actors, s, g, all, found);
    }
  }
}
