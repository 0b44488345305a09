/**
 * What a paste is meant to do, as plain loops over values with no budget and no ticks: place
 * every piece in `order`, then walk every link of every piece.  The throttled state machine in
 * module Paste is proved to issue exactly these calls.
 *
 * `answers[k]` is what came of the k-th placement: the actor the engine made, or None when the
 * spawn failed or the class is not loaded on this map.
 */
module PasteSpec {
  import opened Wrappers
  import opened Geometry
  import opened Model
  import opened World

  datatype PasteOptions = PasteOptions(
    origin: Vec, yaw: real, turn: Turn, team: int, ownerId: int,
    invulnerable: bool, sink: real, perTick: int)

  type Answers = seq<Option<ActorId>>

  datatype Plan = Plan(bp: Blueprint, opts: PasteOptions, resolved: seq<bool>, order: seq<nat>)

  const DEFAULT_PER_TICK: nat := 25

  function Budget(opts: PasteOptions): (b: nat)
    ensures b > 0
  {
    if opts.perTick > 0 then opts.perTick else DEFAULT_PER_TICK
  }

  /** The rate as the caller asked for it, or 25 when the caller did not. */
  lemma BudgetIsRate(opts: PasteOptions)
    ensures Budget(opts) == if opts.perTick >= 1 then opts.perTick else 25
  {
  }

  /** No piece names a class outside the dictionary; placing looks each one up without a check. */
  predicate ClassesInRange(bp: Blueprint) {
    forall i :: 0 <= i < |bp.pieces| ==> 0 <= bp.pieces[i].classIndex < |bp.classes|
  }

  predicate IsPermutation(order: seq<nat>) {
    (forall k :: 0 <= k < |order| ==> order[k] < |order|) &&
    (forall j, k :: 0 <= j < k < |order| ==> order[j] != order[k]) &&
    (forall i :: 0 <= i < |order| ==> i in order)
  }

  predicate IsBottomUp(pieces: seq<Piece>, order: seq<nat>)
    requires forall k :: 0 <= k < |order| ==> order[k] < |pieces|
  {
    forall j, k :: 0 <= j < k < |order| ==> pieces[order[j]].z <= pieces[order[k]].z
  }

  predicate IsPlan(plan: Plan) {
    |plan.resolved| == |plan.bp.classes| &&
    |plan.order| == |plan.bp.pieces| &&
    IsPermutation(plan.order) && IsBottomUp(plan.bp.pieces, plan.order)
  }

  /** Whether the class of piece `i` was found on this map. */
  predicate Resolved(plan: Plan, i: nat)
    requires IsPlan(plan) && i < |plan.bp.pieces|
  {
    var c := plan.bp.pieces[i].classIndex;
    0 <= c < |plan.resolved| && plan.resolved[c]
  }

  /** Answers the engine can have given to the first placements: no actor for a missing class. */
  predicate AreAnswers(plan: Plan, answers: Answers) {
    IsPlan(plan) && |answers| <= |plan.order| &&
    (forall k :: 0 <= k < |answers| && !Resolved(plan, plan.order[k]) ==> answers[k].None?) &&
    (forall j, k :: 0 <= j < k < |answers| && answers[j].Some? ==> answers[j] != answers[k])
  }

  lemma PlanIndices(plan: Plan, k: nat)
    requires IsPlan(plan) && k < |plan.order|
    ensures plan.order[k] < |plan.bp.pieces|
    ensures Resolved(plan, plan.order[k]) ==> 0 <= plan.bp.pieces[plan.order[k]].classIndex < |plan.bp.classes|
  {
  }

  /** From answer number `from` on, no answer names an actor of `w`. */
  predicate AreNewSince(answers: Answers, from: nat, w: Actors) {
    forall j :: from <= j < |answers| && answers[j].Some? ==> answers[j].value !in w
  }

  function Offset(p: Piece): Vec {
    Vec(p.x, p.y, p.z)
  }

  /** Where a piece belongs: its offset turned about the origin corner. */
  function Destination(opts: PasteOptions, p: Piece): Vec {
    Add(opts.origin, RotateAroundZ(Offset(p), opts.turn))
  }

  /** Where its actor is spawned: lowered by the sink. */
  function SpawnPoint(opts: PasteOptions, p: Piece): Vec {
    var d := Destination(opts, p);
    d.(z := d.z - opts.sink)
  }

  function SpawnRotation(opts: PasteOptions, p: Piece): Rot {
    Rot(p.pitch, p.yaw + opts.yaw, p.roll)
  }

  // ----- placing -----

  /** The `spawned` table after the first `k` placements. */
  function SpawnedAfter(order: seq<nat>, answers: Answers, k: nat): (s: Answers)
    requires k <= |answers| <= |order|
    requires forall j :: 0 <= j < |order| ==> order[j] < |order|
    ensures |s| == |order|
  {
    if k == 0 then seq(|order|, _ => None)
    else SpawnedAfter(order, answers, k - 1)[order[k - 1] := answers[k - 1]]
  }

  function Spawned(plan: Plan, answers: Answers): (s: Answers)
    requires AreAnswers(plan, answers)
    ensures |s| == |plan.bp.pieces|
  {
    SpawnedAfter(plan.order, answers, |answers|)
  }

  /** The floor actor a piece is finalised with, looked up in the table of the moment. */
  function FloorActor(p: Piece, spawned: Answers): Option<ActorId> {
    if 0 <= p.floor < |spawned| then spawned[p.floor] else None
  }

  /** The spawn call for piece `i`: none at all when its class is missing. */
  function Attempts(plan: Plan, i: nat, made: Option<ActorId>): seq<Event>
    requires IsPlan(plan) && i < |plan.bp.pieces|
  {
    var p := plan.bp.pieces[i];
    if !Resolved(plan, i) then []
    else [SpawnAttempt(plan.bp.classes[p.classIndex], SpawnPoint(plan.opts, p),
                       SpawnRotation(plan.opts, p), made)]
  }

  /** The finalizer call for a spawned piece `i`, with the floor the table holds for it. */
  function Finals(plan: Plan, i: nat, made: Option<ActorId>, spawned: Answers): seq<Event>
    requires i < |plan.bp.pieces|
  {
    if made.None? || plan.opts.invulnerable then []
    else [Finalize(made.value, plan.opts.team, plan.opts.ownerId, FloorActor(plan.bp.pieces[i], spawned))]
  }

  /** The calls of the k-th placement. */
  function PlaceEvents(plan: Plan, answers: Answers, k: nat): seq<Event>
    requires AreAnswers(plan, answers) && k < |answers|
  {
    Attempts(plan, plan.order[k], answers[k])
    + Finals(plan, plan.order[k], answers[k], SpawnedAfter(plan.order, answers, k + 1))
  }

  function PlaceTrace(plan: Plan, answers: Answers, k: nat): seq<Event>
    requires AreAnswers(plan, answers) && k <= |answers|
  {
    if k == 0 then [] else PlaceTrace(plan, answers, k - 1) + PlaceEvents(plan, answers, k - 1)
  }

  lemma EventsOfPlacement(plan: Plan, answers: Answers, k: nat)
    requires AreAnswers(plan, answers) && k < |answers|
    ensures forall e :: e in PlaceEvents(plan, answers, k) ==>
              e.SpawnAttempt? ||
              (e.Finalize? && !plan.opts.invulnerable && e.team == plan.opts.team && e.ownerId == plan.opts.ownerId &&
               Some(e.actor) == answers[k])
    ensures answers[k].Some? && !plan.opts.invulnerable ==>
              exists floor: Option<ActorId> ::
                Finalize(answers[k].value, plan.opts.team, plan.opts.ownerId, floor) in PlaceEvents(plan, answers, k)
  {
    hide IsBottomUp, Resolved, SpawnedAfter, SpawnPoint, SpawnRotation, FloorActor;
    var i, s := plan.order[k], SpawnedAfter(plan.order, answers, k + 1);
    var finals := Finals(plan, i, answers[k], s);
    if answers[k].Some? && !plan.opts.invulnerable {
      assert finals[0]
             == Finalize(answers[k].value, plan.opts.team, plan.opts.ownerId, FloorActor(plan.bp.pieces[i], s));
      assert finals[0] in PlaceEvents(plan, answers, k);
    }
  }

  /** Every finaliser call is for an actor of this paste, and hands over the team first and the owner second. */
  lemma {:induction false} FinalizedForOwner(plan: Plan, answers: Answers, k: nat, e: Event)
    requires AreAnswers(plan, answers) && k <= |answers| && e in PlaceTrace(plan, answers, k)
    ensures e.SpawnAttempt? ||
            (e.Finalize? && !plan.opts.invulnerable && e.team == plan.opts.team && e.ownerId == plan.opts.ownerId &&
             Some(e.actor) in answers[..k])
  {
    hide IsPlan, PlaceEvents;
    if k > 0 {
      if e in PlaceTrace(plan, answers, k - 1) {
        FinalizedForOwner(plan, answers, k - 1, e);
      } else {
        EventsOfPlacement(plan, answers, k - 1);
        assert answers[..k][k - 1] == answers[k - 1];
      }
    }
  }

  /** And no actor is left without one, unless the build is invulnerable. */
  lemma {:induction false} EveryActorIsFinalized(plan: Plan, answers: Answers, k: nat, j: nat)
    requires AreAnswers(plan, answers) && j < k <= |answers| && answers[j].Some? && !plan.opts.invulnerable
    ensures exists floor: Option<ActorId> ::
              Finalize(answers[j].value, plan.opts.team, plan.opts.ownerId, floor) in PlaceTrace(plan, answers, k)
    decreases k
  {
    hide IsPlan, PlaceEvents;
    assert PlaceTrace(plan, answers, k) == PlaceTrace(plan, answers, k - 1) + PlaceEvents(plan, answers, k - 1);
    if j < k - 1 { EveryActorIsFinalized(plan, answers, k - 1, j); } else { EventsOfPlacement(plan, answers, j); }
  }

  // ----- linking -----

  function EdgeEvent(from: ActorId, target: int, spawned: Answers): seq<Event> {
    if 0 <= target < |spawned| && spawned[target].Some? then [Link(from, spawned[target].value)] else []
  }

  /** The calls for the first `m` links of one piece. */
  function Edges(from: ActorId, links: seq<int>, spawned: Answers, m: nat): seq<Event>
    requires m <= |links|
  {
    if m == 0 then [] else Edges(from, links, spawned, m - 1) + EdgeEvent(from, links[m - 1], spawned)
  }

  function PieceEdges(pieces: seq<Piece>, spawned: Answers, i: nat): seq<Event>
    requires i < |pieces| == |spawned|
  {
    if spawned[i].None? then [] else Edges(spawned[i].value, pieces[i].links, spawned, |pieces[i].links|)
  }

  /** The calls for all links of the first `i` pieces. */
  function LinkTrace(pieces: seq<Piece>, spawned: Answers, i: nat): seq<Event>
    requires i <= |pieces| == |spawned|
  {
    if i == 0 then [] else LinkTrace(pieces, spawned, i - 1) + PieceEdges(pieces, spawned, i - 1)
  }

  /** Everything one paste does, as one uninterrupted pass. */
  function OneShot(plan: Plan, answers: Answers): seq<Event>
    requires AreAnswers(plan, answers) && |answers| == |plan.order|
  {
    PlaceTrace(plan, answers, |answers|)
    + if plan.opts.invulnerable then []
      else LinkTrace(plan.bp.pieces, Spawned(plan, answers), |plan.bp.pieces|)
  }

  // ----- counters, as functions of the calls made -----

  function CountFloors(events: seq<Event>): nat {
    if events == [] then 0
    else CountFloors(events[..|events| - 1])
         + if events[|events| - 1].Finalize? && events[|events| - 1].floor.Some? then 1 else 0
  }

  function CountLinks(events: seq<Event>): nat {
    if events == [] then 0
    else CountLinks(events[..|events| - 1]) + if events[|events| - 1].Link? then 1 else 0
  }

  function CountSome(s: Answers): nat {
    if s == [] then 0 else CountSome(s[..|s| - 1]) + if s[|s| - 1].Some? then 1 else 0
  }

  lemma CountSomeAppend(s: Answers, a: Option<ActorId>)
    ensures CountSome(s + [a]) == CountSome(s) + if a.Some? then 1 else 0
  {
    assert (s + [a])[..|s|] == s;
  }

  lemma CountOne(events: seq<Event>, e: Event)
    ensures CountFloors(events + [e]) == CountFloors(events) + if e.Finalize? && e.floor.Some? then 1 else 0
    ensures CountLinks(events + [e]) == CountLinks(events) + if e.Link? then 1 else 0
  {
    assert (events + [e])[..|events|] == events;
  }

  lemma CountNone()
    ensures CountFloors([]) == CountLinks([]) == 0
  {
  }

  lemma CountSingle(e: Event)
    ensures CountFloors([e]) == if e.Finalize? && e.floor.Some? then 1 else 0
    ensures CountLinks([e]) == if e.Link? then 1 else 0
  {
    CountOne([], e);
    assert [] + [e] == [e];
  }

  lemma {:induction false} CountAppend(a: seq<Event>, b: seq<Event>)
    ensures CountFloors(a + b) == CountFloors(a) + CountFloors(b)
    ensures CountLinks(a + b) == CountLinks(a) + CountLinks(b)
  {
    if b == [] {
      assert a + b == a;
    } else {
      var n := |b| - 1;
      CountAppend(a, b[..n]);
      assert a + b == (a + b[..n]) + [b[n]];
      CountOne(a + b[..n], b[n]);
    }
  }

  // ----- a further answer changes nothing already done -----

  lemma {:induction false} SpawnedAfterPrefix(order: seq<nat>, a: Answers, b: Answers, k: nat)
    requires k <= |a| <= |order| && k <= |b| <= |order| && a[..k] == b[..k]
    requires forall j :: 0 <= j < |order| ==> order[j] < |order|
    ensures SpawnedAfter(order, a, k) == SpawnedAfter(order, b, k)
  {
    if k > 0 {
      assert a[..k - 1] == a[..k][..k - 1] == b[..k - 1];
      SpawnedAfterPrefix(order, a, b, k - 1);
      assert a[k - 1] == a[..k][k - 1] == b[k - 1];
    }
  }

  lemma PlaceEventsPrefix(plan: Plan, a: Answers, b: Answers, k: nat)
    requires AreAnswers(plan, a) && AreAnswers(plan, b) && k < |a| && k < |b| && a[..k + 1] == b[..k + 1]
    ensures PlaceEvents(plan, a, k) == PlaceEvents(plan, b, k)
  {
    SpawnedAfterPrefix(plan.order, a, b, k + 1);
    assert a[k] == a[..k + 1][k] == b[k];
  }

  lemma {:induction false} PlaceTracePrefix(plan: Plan, a: Answers, b: Answers, k: nat)
    requires AreAnswers(plan, a) && AreAnswers(plan, b) && k <= |a| && k <= |b| && a[..k] == b[..k]
    ensures PlaceTrace(plan, a, k) == PlaceTrace(plan, b, k)
  {
    hide IsPlan, Resolved, PlaceEvents;
    if k > 0 {
      assert a[..k - 1] == a[..k][..k - 1] == b[..k - 1];
      PlaceTracePrefix(plan, a, b, k - 1);
      PlaceEventsPrefix(plan, a, b, k - 1);
    }
  }

  // ----- one placement at a time -----

  /** The table and the counters after `|answers|` placements. */
  datatype Placement = Placement(answers: Answers, spawned: Answers, failed: nat, floors: nat)

  predicate IsPlacement(plan: Plan, s: Placement) {
    AreAnswers(plan, s.answers) &&
    s.spawned == SpawnedAfter(plan.order, s.answers, |s.answers|) &&
    s.failed + CountSome(s.spawned) == |s.answers| &&
    s.floors == CountFloors(PlaceTrace(plan, s.answers, |s.answers|))
  }

  function NextEvents(plan: Plan, s: Placement, made: Option<ActorId>): seq<Event>
    requires IsPlan(plan) && |s.answers| < |plan.order| == |s.spawned|
  {
    var i := plan.order[|s.answers|];
    Attempts(plan, i, made) + Finals(plan, i, made, s.spawned[i := made])
  }

  function NextPlacement(plan: Plan, s: Placement, made: Option<ActorId>): Placement
    requires IsPlan(plan) && |s.answers| < |plan.order| == |s.spawned|
  {
    Placement(s.answers + [made], s.spawned[plan.order[|s.answers|] := made],
              s.failed + (if made.None? then 1 else 0),
              s.floors + CountFloors(NextEvents(plan, s, made)))
  }

  lemma NewAnswer(plan: Plan, answers: Answers, made: Option<ActorId>)
    requires AreAnswers(plan, answers) && |answers| < |plan.order|
    requires !Resolved(plan, plan.order[|answers|]) ==> made.None?
    requires made.Some? ==> made !in SpawnedAfter(plan.order, answers, |answers|)
    ensures AreAnswers(plan, answers + [made])
  {
    hide IsBottomUp, SpawnedAfter, Resolved;
    forall j | 0 <= j < |answers| && answers[j].Some?
      ensures answers[j] != made
    {
      SpawnedAfterAt(plan.order, answers, |answers|, j);
    }
  }

  lemma PlacedOneMore(plan: Plan, answers: Answers, made: Option<ActorId>)
    requires AreAnswers(plan, answers) && AreAnswers(plan, answers + [made])
    ensures var k, more := |answers|, answers + [made];
            SpawnedAfter(plan.order, more, k + 1)
            == SpawnedAfter(plan.order, answers, k)[plan.order[k] := made] &&
            SpawnedAfter(plan.order, answers, k)[plan.order[k]].None? &&
            PlaceTrace(plan, more, k + 1) == PlaceTrace(plan, answers, k) + PlaceEvents(plan, more, k)
  {
    var k, more := |answers|, answers + [made];
    assert more[..k] == answers[..k];
    SpawnedAfterPrefix(plan.order, answers, more, k);
    PlaceTracePrefix(plan, answers, more, k);
    SpawnedAfterAt(plan.order, answers, k, k);
  }

  lemma PlanShape(plan: Plan)
    requires IsPlan(plan)
    ensures |plan.order| == |plan.bp.pieces|
  {
  }

  lemma OneShotIsBoth(plan: Plan, answers: Answers)
    requires AreAnswers(plan, answers) && |answers| == |plan.order|
    ensures plan.opts.invulnerable ==> OneShot(plan, answers) == PlaceTrace(plan, answers, |answers|)
    ensures !plan.opts.invulnerable ==>
              OneShot(plan, answers) == PlaceTrace(plan, answers, |answers|)
                                        + LinksSoFar(plan.bp.pieces, Spawned(plan, answers), |plan.bp.pieces|, 0)
  {
  }

  lemma PlacementShape(plan: Plan, s: Placement)
    requires IsPlacement(plan, s)
    ensures AreAnswers(plan, s.answers) && IsPlan(plan) && |plan.order| == |plan.bp.pieces| == |s.spawned|
  {
  }

  lemma NotYetPlaced(plan: Plan, s: Placement)
    requires IsPlacement(plan, s) && |s.answers| < |plan.order|
    ensures |s.spawned| == |plan.order|
    ensures s.spawned[plan.order[|s.answers|]].None?
    ensures s.spawned[plan.order[|s.answers|] := None] == s.spawned
  {
    SpawnedAfterAt(plan.order, s.answers, |s.answers|, |s.answers|);
  }

  lemma NextEventsAreNext(plan: Plan, s: Placement, made: Option<ActorId>)
    requires AreAnswers(plan, s.answers) && AreAnswers(plan, s.answers + [made])
    requires |s.spawned| == |plan.order|
    requires s.spawned[plan.order[|s.answers|] := made]
             == SpawnedAfter(plan.order, s.answers + [made], |s.answers| + 1)
    ensures NextEvents(plan, s, made) == PlaceEvents(plan, s.answers + [made], |s.answers|)
  {
  }

  /** A placement answered with a new actor, or with none, is the next one of the one-shot pass. */
  lemma PlacementAdvances(plan: Plan, s: Placement, made: Option<ActorId>)
    requires IsPlacement(plan, s) && |s.answers| < |plan.order|
    requires !Resolved(plan, plan.order[|s.answers|]) ==> made.None?
    requires made.Some? ==> made !in s.spawned
    ensures IsPlacement(plan, NextPlacement(plan, s, made))
    ensures PlaceTrace(plan, s.answers + [made], |s.answers| + 1)
            == PlaceTrace(plan, s.answers, |s.answers|) + NextEvents(plan, s, made)
  {
    hide IsPermutation, IsBottomUp, ClassesInRange, SpawnedAfter, PlaceEvents, PlaceTrace, CountSome, CountFloors;
    var k := |s.answers|;
    NewAnswer(plan, s.answers, made);
    PlacedOneMore(plan, s.answers, made);
    PlanIndices(plan, k);
    NextEventsAreNext(plan, s, made);
    CountSomeUpdate(s.spawned, plan.order[k], made);
    CountAppend(PlaceTrace(plan, s.answers, k), NextEvents(plan, s, made));
  }

  // ----- link work: what the budget is spent on -----

  /** One unit per link of a spawned piece, and one to leave each piece. */
  function Cost(pieces: seq<Piece>, spawned: Answers, i: nat): nat
    requires i < |pieces| == |spawned|
  {
    1 + if spawned[i].Some? then |pieces[i].links| else 0
  }

  function Work(pieces: seq<Piece>, spawned: Answers, i: nat): nat
    requires i <= |pieces| == |spawned|
  {
    if i == 0 then 0 else Work(pieces, spawned, i - 1) + Cost(pieces, spawned, i - 1)
  }

  lemma {:induction false} WorkGrows(pieces: seq<Piece>, spawned: Answers, i: nat, j: nat)
    requires i <= j <= |pieces| == |spawned|
    ensures Work(pieces, spawned, i) + (j - i) <= Work(pieces, spawned, j)
  {
    if i < j { WorkGrows(pieces, spawned, i, j - 1); }
  }

  // ----- one unit of link work at a time -----

  /** The link cursors point at a piece and at one of its links, or just past the last of them. */
  predicate IsLinkPosition(pieces: seq<Piece>, spawned: Answers, cursor: nat, sub: nat) {
    |spawned| == |pieces| && cursor <= |pieces| &&
    (sub > 0 ==> cursor < |pieces| && spawned[cursor].Some? && sub <= |pieces[cursor].links|)
  }

  function WorkDone(pieces: seq<Piece>, spawned: Answers, cursor: nat, sub: nat): nat
    requires IsLinkPosition(pieces, spawned, cursor, sub)
  {
    Work(pieces, spawned, cursor) + sub
  }

  /** The link calls made when the cursors are at this position. */
  function LinksSoFar(pieces: seq<Piece>, spawned: Answers, cursor: nat, sub: nat): seq<Event>
    requires IsLinkPosition(pieces, spawned, cursor, sub)
  {
    LinkTrace(pieces, spawned, cursor)
    + if sub == 0 then [] else Edges(spawned[cursor].value, pieces[cursor].links, spawned, sub)
  }

  lemma LeavingPiece(pieces: seq<Piece>, spawned: Answers, cursor: nat, sub: nat)
    requires IsLinkPosition(pieces, spawned, cursor, sub) && cursor < |pieces|
    requires spawned[cursor].None? || sub >= |pieces[cursor].links|
    ensures IsLinkPosition(pieces, spawned, cursor + 1, 0)
    ensures WorkDone(pieces, spawned, cursor + 1, 0) == WorkDone(pieces, spawned, cursor, sub) + 1
    ensures LinksSoFar(pieces, spawned, cursor + 1, 0) == LinksSoFar(pieces, spawned, cursor, sub)
  {
  }

  lemma MakingEdge(pieces: seq<Piece>, spawned: Answers, cursor: nat, sub: nat)
    requires IsLinkPosition(pieces, spawned, cursor, sub) && cursor < |pieces|
    requires spawned[cursor].Some? && sub < |pieces[cursor].links|
    ensures IsLinkPosition(pieces, spawned, cursor, sub + 1)
    ensures WorkDone(pieces, spawned, cursor, sub + 1) == WorkDone(pieces, spawned, cursor, sub) + 1
    ensures LinksSoFar(pieces, spawned, cursor, sub + 1)
            == LinksSoFar(pieces, spawned, cursor, sub)
               + EdgeEvent(spawned[cursor].value, pieces[cursor].links[sub], spawned)
  {
  }

  /** Work is left exactly while the cursor has not passed the last piece. */
  lemma WorkLeft(pieces: seq<Piece>, spawned: Answers, cursor: nat, sub: nat)
    requires IsLinkPosition(pieces, spawned, cursor, sub)
    ensures WorkDone(pieces, spawned, cursor, sub) <= Work(pieces, spawned, |pieces|)
    ensures WorkDone(pieces, spawned, cursor, sub) == Work(pieces, spawned, |pieces|) <==> cursor == |pieces|
  {
    if cursor < |pieces| { WorkGrows(pieces, spawned, cursor + 1, |pieces|); }
  }

  lemma NothingLinked(pieces: seq<Piece>, spawned: Answers)
    requires |spawned| == |pieces|
    ensures LinksSoFar(pieces, spawned, 0, 0) == [] && CountLinks([]) == 0
  {
  }

  function Smaller(a: nat, b: nat): nat {
    if a <= b then a else b
  }

  function CeilDiv(a: nat, b: nat): nat
    requires b > 0
  {
    (a + b - 1) / b
  }

  // ----- what the one-shot pass amounts to -----

  /** Each piece is placed exactly once, so the table holds each piece's own answer. */
  lemma {:induction false} SpawnedAfterAt(order: seq<nat>, answers: Answers, k: nat, j: nat)
    requires IsPermutation(order) && k <= |answers| <= |order| && j < |order|
    ensures SpawnedAfter(order, answers, k)[order[j]] == if j < k then answers[j] else None
  {
    if k > 0 {
      SpawnedAfterAt(order, answers, k - 1, j);
      if j != k - 1 { assert order[j] != order[k - 1]; }
    }
  }

  lemma PositionOf(order: seq<nat>, i: nat) returns (k: nat)
    requires IsPermutation(order) && i < |order|
    ensures k < |order| && order[k] == i
  {
    assert i in order;
    k :| k < |order| && order[k] == i;
  }

  lemma {:induction false} CountSomeUpdate(s: Answers, i: nat, a: Option<ActorId>)
    requires i < |s| && s[i].None?
    ensures CountSome(s[i := a]) == CountSome(s) + if a.Some? then 1 else 0
    decreases |s|
  {
    var n := |s| - 1;
    if i == n {
      assert s[i := a][..n] == s[..n];
    } else {
      CountSomeUpdate(s[..n], i, a);
      assert s[i := a][..n] == s[..n][i := a];
    }
  }

  lemma {:induction false} CountSomeNone(n: nat, s: Answers)
    requires |s| == n && forall i :: 0 <= i < n ==> s[i].None?
    ensures CountSome(s) == 0
  {
    if n > 0 { CountSomeNone(n - 1, s[..n - 1]); }
  }

  /** Failed placements and actors in the table together account for every placement made. */
  lemma {:induction false} EveryPlacementIsCounted(order: seq<nat>, answers: Answers, k: nat)
    requires IsPermutation(order) && k <= |answers| <= |order|
    ensures CountSome(SpawnedAfter(order, answers, k)) == CountSome(answers[..k])
  {
    if k == 0 {
      CountSomeNone(|order|, SpawnedAfter(order, answers, 0));
      assert answers[..0] == [];
    } else {
      EveryPlacementIsCounted(order, answers, k - 1);
      SpawnedAfterAt(order, answers, k - 1, k - 1);
      CountSomeUpdate(SpawnedAfter(order, answers, k - 1), order[k - 1], answers[k - 1]);
      assert answers[..k] == answers[..k - 1] + [answers[k - 1]];
      CountSomeAppend(answers[..k - 1], answers[k - 1]);
    }
  }

  /** What the table holds, right after placement `k`, for the piece placed at position `j`. */
  lemma LookupAfter(order: seq<nat>, answers: Answers, k: nat, f: int) returns (j: nat)
    requires IsPermutation(order) && k < |answers| <= |order| && 0 <= f < |order|
    ensures j < |order| && order[j] == f
    ensures SpawnedAfter(order, answers, k + 1)[f] == if j <= k then answers[j] else None
  {
    j := PositionOf(order, f);
    SpawnedAfterAt(order, answers, k + 1, j);
  }

  lemma FloorLookup(order: seq<nat>, answers: Answers, k: nat, f: int)
    requires IsPermutation(order) && k < |answers| <= |order|
    ensures (0 <= f < |order| && SpawnedAfter(order, answers, k + 1)[f].Some?) <==>
            exists j :: 0 <= j <= k && order[j] == f && answers[j].Some?
  {
    if 0 <= f < |order| {
      var j := LookupAfter(order, answers, k, f);
      forall i | 0 <= i <= k && order[i] == f
        ensures i == j
      {
      }
    }
  }

  /**
   * The floor a piece is finalised with is non-null exactly when its floor index is in range, the
   * floor piece is placed no later than the piece itself, and its spawn succeeded.
   */
  lemma FloorIsPlacedFirst(plan: Plan, answers: Answers, k: nat)
    requires AreAnswers(plan, answers) && k < |answers|
    ensures var p := plan.bp.pieces[plan.order[k]];
            FloorActor(p, SpawnedAfter(plan.order, answers, k + 1)).Some? <==>
            exists j :: 0 <= j <= k && plan.order[j] == p.floor && answers[j].Some?
  {
    FloorLookup(plan.order, answers, k, plan.bp.pieces[plan.order[k]].floor);
  }

  lemma StrictlyLowerComesFirst(pieces: seq<Piece>, order: seq<nat>, j: nat, k: nat)
    requires |order| == |pieces| && IsPermutation(order) && IsBottomUp(pieces, order)
    requires j < |order| && k < |order| && pieces[order[j]].z < pieces[order[k]].z
    ensures j < k
  {
  }

  /** Bottom-up: a spawned floor that lies strictly lower is never missed. */
  lemma LowerFloorIsPassed(plan: Plan, answers: Answers, k: nat, f: nat)
    requires AreAnswers(plan, answers) && |answers| == |plan.order| && k < |answers|
    requires f < |plan.bp.pieces| && plan.bp.pieces[plan.order[k]].floor == f
    requires plan.bp.pieces[f].z < plan.bp.pieces[plan.order[k]].z
    requires Spawned(plan, answers)[f].Some?
    ensures FloorActor(plan.bp.pieces[plan.order[k]], SpawnedAfter(plan.order, answers, k + 1))
            == Spawned(plan, answers)[f]
  {
    var j := LookupAfter(plan.order, answers, k, f);
    SpawnedAfterAt(plan.order, answers, |answers|, j);
    StrictlyLowerComesFirst(plan.bp.pieces, plan.order, j, k);
  }

  /** Spawned actors are pairwise distinct. */
  lemma SpawnedAreDistinct(plan: Plan, answers: Answers, i: nat, j: nat)
    requires AreAnswers(plan, answers) && |answers| == |plan.order|
    requires i < |plan.bp.pieces| && j < |plan.bp.pieces| && i != j
    requires Spawned(plan, answers)[i].Some?
    ensures Spawned(plan, answers)[i] != Spawned(plan, answers)[j]
  {
    var a := PositionOf(plan.order, i);
    var b := PositionOf(plan.order, j);
    SpawnedAfterAt(plan.order, answers, |answers|, a);
    SpawnedAfterAt(plan.order, answers, |answers|, b);
    if a < b { assert answers[a] != answers[b]; } else { assert answers[b].Some? ==> answers[b] != answers[a]; }
  }

  // ----- each eligible edge exactly once -----

  predicate DistinctSpawned(spawned: Answers) {
    forall i, j :: 0 <= i < j < |spawned| && spawned[i].Some? ==> spawned[i] != spawned[j]
  }

  lemma EdgeCount(from: ActorId, target: int, spawned: Answers, j: nat)
    requires j < |spawned| && spawned[j].Some? && DistinctSpawned(spawned)
    ensures multiset(EdgeEvent(from, target, spawned))[Link(from, spawned[j].value)] == if target == j then 1 else 0
  {
    if 0 <= target < |spawned| && spawned[target].Some? && target != j {
      assert spawned[target] != spawned[j];
    }
  }

  lemma CountInAppend<T>(a: seq<T>, b: seq<T>, x: T)
    ensures multiset(a + b)[x] == multiset(a)[x] + multiset(b)[x]
  {
  }

  lemma {:induction false} EdgesCount(from: ActorId, links: seq<int>, spawned: Answers, m: nat, j: nat)
    requires m <= |links| && j < |spawned| && spawned[j].Some? && DistinctSpawned(spawned)
    ensures multiset(Edges(from, links, spawned, m))[Link(from, spawned[j].value)] == multiset(links[..m])[j]
  {
    hide EdgeEvent, DistinctSpawned;
    if m > 0 {
      var e := Link(from, spawned[j].value);
      EdgesCount(from, links, spawned, m - 1, j);
      EdgeCount(from, links[m - 1], spawned, j);
      CountInAppend(Edges(from, links, spawned, m - 1), EdgeEvent(from, links[m - 1], spawned), e);
      assert links[..m] == links[..m - 1] + [links[m - 1]];
      CountInAppend(links[..m - 1], [links[m - 1]], j);
    }
  }

  lemma {:induction false} EdgesComeFrom(from: ActorId, links: seq<int>, spawned: Answers, m: nat, e: Event)
    requires m <= |links|
    requires e in Edges(from, links, spawned, m)
    ensures e.Link? && e.from == from
    ensures exists t :: t in links && 0 <= t < |spawned| && spawned[t] == Some(e.to)
  {
    if e in Edges(from, links, spawned, m - 1) {
      EdgesComeFrom(from, links, spawned, m - 1, e);
    } else {
      assert e in EdgeEvent(from, links[m - 1], spawned);
      assert links[m - 1] in links;
    }
  }

  lemma PieceEdgesCount(pieces: seq<Piece>, spawned: Answers, k: nat, i: nat, j: nat)
    requires k < |pieces| == |spawned| && DistinctSpawned(spawned)
    requires i < |pieces| && j < |pieces| && spawned[i].Some? && spawned[j].Some?
    ensures multiset(PieceEdges(pieces, spawned, k))[Link(spawned[i].value, spawned[j].value)]
            == if k == i then multiset(pieces[i].links)[j] else 0
  {
    var e := Link(spawned[i].value, spawned[j].value);
    var links := pieces[k].links;
    if k == i {
      EdgesCount(spawned[i].value, links, spawned, |links|, j);
      assert links[..|links|] == links;
    } else if e in PieceEdges(pieces, spawned, k) {
      EdgesComeFrom(spawned[k].value, links, spawned, |links|, e);
    }
  }

  lemma CountInTrace(pieces: seq<Piece>, spawned: Answers, n: nat, e: Event)
    requires 0 < n <= |pieces| == |spawned|
    ensures TimesMade(pieces, spawned, n, e)
            == TimesMade(pieces, spawned, n - 1, e) + multiset(PieceEdges(pieces, spawned, n - 1))[e]
  {
    hide PieceEdges;
    CountInAppend(LinkTrace(pieces, spawned, n - 1), PieceEdges(pieces, spawned, n - 1), e);
  }

  /** How often the link phase has made one call when the first `n` pieces are done. */
  function TimesMade(pieces: seq<Piece>, spawned: Answers, n: nat, e: Event): nat
    requires n <= |pieces| == |spawned|
  {
    multiset(LinkTrace(pieces, spawned, n))[e]
  }

  lemma NothingMade(pieces: seq<Piece>, spawned: Answers, e: Event)
    requires |pieces| == |spawned|
    ensures TimesMade(pieces, spawned, 0, e) == 0
  {
  }

  lemma {:induction false} OnlyPieceContributes(pieces: seq<Piece>, spawned: Answers, n: nat, e: Event, i: nat,
                                                times: nat)
    requires n <= |pieces| == |spawned|
    requires forall k :: 0 <= k < |pieces| ==>
               multiset(PieceEdges(pieces, spawned, k))[e] == if k == i then times else 0
    ensures TimesMade(pieces, spawned, n, e) == if i < n then times else 0
  {
    hide TimesMade, PieceEdges;
    if n == 0 {
      NothingMade(pieces, spawned, e);
    } else {
      OnlyPieceContributes(pieces, spawned, n - 1, e, i, times);
      CountInTrace(pieces, spawned, n, e);
    }
  }

  /**
   * The link phase links the actors of pieces i and j exactly as often as piece i lists j:
   * every eligible edge once, and nothing twice.
   */
  lemma EveryEdgeOnce(pieces: seq<Piece>, spawned: Answers, i: nat, j: nat)
    requires |pieces| == |spawned| && DistinctSpawned(spawned)
    requires i < |pieces| && j < |pieces| && spawned[i].Some? && spawned[j].Some?
    ensures multiset(LinkTrace(pieces, spawned, |pieces|))[Link(spawned[i].value, spawned[j].value)]
            == multiset(pieces[i].links)[j]
  {
    var e, times := Link(spawned[i].value, spawned[j].value), multiset(pieces[i].links)[j];
    forall k | 0 <= k < |pieces|
      ensures multiset(PieceEdges(pieces, spawned, k))[e] == if k == i then times else 0
    {
      PieceEdgesCount(pieces, spawned, k, i, j);
    }
    OnlyPieceContributes(pieces, spawned, |pieces|, e, i, times);
    assert TimesMade(pieces, spawned, |pieces|, e) == times;
  }

  /** And the link phase makes no other call. */
  lemma {:induction false} OnlyListedEdges(pieces: seq<Piece>, spawned: Answers, n: nat, e: Event)
    requires n <= |pieces| == |spawned|
    requires e in LinkTrace(pieces, spawned, n)
    ensures exists i, j :: 0 <= i < n && 0 <= j < |spawned| && j in pieces[i].links &&
                           spawned[i].Some? && spawned[j].Some? && e == Link(spawned[i].value, spawned[j].value)
  {
    hide PieceEdges;
    assert n > 0;
    if e in LinkTrace(pieces, spawned, n - 1) {
      OnlyListedEdges(pieces, spawned, n - 1, e);
    } else {
      assert e in PieceEdges(pieces, spawned, n - 1);
      var t := PieceEdgesComeFrom(pieces, spawned, n - 1, e);
      assert t in pieces[n - 1].links;
    }
  }

  lemma PieceEdgesComeFrom(pieces: seq<Piece>, spawned: Answers, i: nat, e: Event) returns (t: nat)
    requires i < |pieces| == |spawned| && e in PieceEdges(pieces, spawned, i)
    ensures t < |spawned| && t in pieces[i].links
    ensures spawned[i].Some? && spawned[t].Some? && e == Link(spawned[i].value, spawned[t].value)
  {
    hide Edges;
    var links := pieces[i].links;
    EdgesComeFrom(spawned[i].value, links, spawned, |links|, e);
    t :| t in links && 0 <= t < |spawned| && spawned[t] == Some(e.to);
  }

  // ----- how many ticks -----

  /** Ticks needed to spend `amount` units of work, `b` at a time. */
  function TicksFor(amount: nat, b: nat): nat
    requires b > 0
  {
    if amount == 0 then 0 else 1 + TicksFor(amount - Smaller(amount, b), b)
  }

  lemma {:induction false} TicksForIsCeilDiv(amount: nat, b: nat)
    requires b > 0
    ensures TicksFor(amount, b) == CeilDiv(amount, b)
  {
    hide CeilDiv;
    CeilDivSteps(amount, b);
    if amount > b {
      TicksForIsCeilDiv(amount - b, b);
    } else if amount > 0 {
      assert TicksFor(0, b) == 0;
    }
  }

  lemma CeilDivSteps(amount: nat, b: nat)
    requires b > 0
    ensures CeilDiv(0, b) == 0
    ensures 0 < amount <= b ==> CeilDiv(amount, b) == 1
    ensures amount > b ==> CeilDiv(amount, b) == CeilDiv(amount - b, b) + 1
  {
    QuotientIsUnique(b - 1, b, 0, b - 1);
    if 0 < amount <= b {
      QuotientIsUnique(amount + b - 1, b, 1, amount - 1);
    } else if amount > b {
      DivideStep(amount - 1, b);
    }
  }

  lemma DivideStep(a: nat, b: nat)
    requires b > 0
    ensures (a + b) / b == a / b + 1
  {
    var q, r := a / b, a % b;
    assert a + b == (q + 1) * b + r;
    QuotientIsUnique(a + b, b, q + 1, r);
  }

  lemma QuotientIsUnique(x: nat, b: nat, q: nat, r: nat)
    requires x == q * b + r && r < b
    ensures x / b == q
  {
    var d, e := x / b, x % b;
    assert x == d * b + e;
    if d < q {
      ProductMonotone(d + 1, q, b);
    } else if d > q {
      ProductMonotone(q + 1, d, b);
    }
  }

  lemma ProductMonotone(a: nat, c: nat, b: nat)
    requires a <= c
    ensures a * b <= c * b
  {
    assert (c - a) * b >= 0;
  }

  lemma NoTicksForNothing(b: nat)
    requires b > 0
    ensures TicksFor(0, b) == 0
  {
  }

  /** One tick spends one budget, or what is left. */
  lemma TicksStep(done: nat, total: nat, b: nat)
    requires b > 0 && done < total
    ensures TicksFor(total - done, b) == 1 + TicksFor(total - Smaller(done + b, total), b)
  {
  }
}
