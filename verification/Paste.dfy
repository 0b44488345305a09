/**
 * The running paste (src/Paste.cpp, PasteJob and TickPaste): two phases, each resumed from its
 * cursors on the next tick and stopped when the budget of the tick is spent.
 */
module Paste {
  import opened Wrappers
  import opened Model
  import opened World
  import opened PasteSpec

  datatype Phase = Placing | Linking

  class PasteJob {
    const bp: Blueprint
    const opts: PasteOptions
    const resolved: seq<bool>        // parallel to bp.classes: the class was found
    const order: seq<nat>            // placement order, bottom-up
    var spawned: Answers             // parallel to bp.pieces
    var phase: Phase
    var cursor: nat
    var linkCursor: nat              // piece being linked
    var linkSub: nat                 // edge within that piece
    var failed: nat
    var linksMade: nat
    var floorsRestored: nat
    ghost var answers: Answers       // what came of each placement so far
    ghost var log: seq<Event>        // the calls this job has made

    ghost function Plan(): Plan {
      PasteSpec.Plan(bp, opts, resolved, order)
    }

    /** Whether every pointer the job holds is still valid. */
    ghost predicate Alive(engine: Engine)
      reads `spawned, engine`actors
    {
      forall i :: 0 <= i < |spawned| && spawned[i].Some? ==> spawned[i].value in engine.actors
    }

    ghost function Placement(): Placement
      reads this
    {
      PasteSpec.Placement(answers, spawned, failed, floorsRestored)
    }

    /** The placements made so far are those of the one-shot pass. */
    ghost predicate PlacedRight()
      reads this
    {
      IsPlacement(Plan(), Placement()) && |answers| == cursor && |spawned| == |bp.pieces|
    }

    ghost predicate IsPlacing()
      reads this
    {
      PlacedRight() && phase == Placing &&
      linkCursor == linkSub == linksMade == 0 &&
      log == PlaceTrace(Plan(), answers, cursor)
    }

    ghost predicate IsLinking()
      reads this
    {
      PlacedRight() && phase == Linking && cursor == |order| && !opts.invulnerable &&
      IsLinkPosition(bp.pieces, spawned, linkCursor, linkSub) &&
      linksMade == CountLinks(LinksSoFar(bp.pieces, spawned, linkCursor, linkSub)) &&
      log == PlaceTrace(Plan(), answers, cursor) + LinksSoFar(bp.pieces, spawned, linkCursor, linkSub)
    }

    /** Units of link work done so far. */
    ghost function Done(): nat
      requires IsLinkPosition(bp.pieces, spawned, linkCursor, linkSub)
      reads this
    {
      WorkDone(bp.pieces, spawned, linkCursor, linkSub)
    }

    /** Nothing is left to do; an invulnerable build is never linked. */
    ghost predicate AtEnd()
      reads this
    {
      if phase == Placing then IsPlacing() && cursor == |order| && opts.invulnerable
      else IsLinking() && linkCursor == |bp.pieces|
    }

    /** What holds between ticks. */
    ghost predicate Valid()
      reads this
    {
      match phase
      case Placing => IsPlacing() && cursor < |order|
      case Linking => IsLinking() && linkCursor < |bp.pieces|
    }

    lemma RunningIsNotAtEnd()
      requires Valid()
      ensures !AtEnd() && |spawned| == |bp.pieces|
    {
    }

    constructor (bp: Blueprint, opts: PasteOptions, resolved: seq<bool>, order: seq<nat>)
      requires IsPlan(PasteSpec.Plan(bp, opts, resolved, order)) && bp.pieces != []
      ensures Valid() && phase == Placing && cursor == 0 && log == [] && answers == []
      ensures Plan() == PasteSpec.Plan(bp, opts, resolved, order)
      ensures forall i :: 0 <= i < |spawned| ==> spawned[i].None?
    {
      this.bp, this.opts, this.resolved, this.order := bp, opts, resolved, order;
      spawned := seq(|bp.pieces|, _ => None);
      phase, cursor, linkCursor, linkSub := Placing, 0, 0, 0;
      failed, linksMade, floorsRestored := 0, 0, 0;
      answers, log := [], [];
      new;
      CountSomeNone(|spawned|, spawned);
    }

    /** One round of the placing loop. */
    method PlaceNext(engine: Engine)
      requires IsPlacing() && cursor < |order| && ClassesInRange(bp) && engine.Valid() && Alive(engine)
      modifies this, engine
      ensures IsPlacing() && cursor == old(cursor) + 1 && engine.Valid() && Alive(engine)
      ensures answers[..old(cursor)] == old(answers)
      ensures AreNewSince(answers, old(cursor), old(engine.actors)) && old(engine.actors).Keys <= engine.actors.Keys
      ensures old(log) <= log && engine.trace == old(engine.trace) + log[|old(log)|..]
      ensures engine.actors == Replay(engine.groupsOf, old(engine.actors), log[|old(log)|..])
    {
      hide IsPermutation, IsBottomUp, ClassesInRange, Resolved, SpawnedAfter, PlaceTrace, CountSome,
        CountFloors, Attempts, Finals, Replay, PasteJob.Alive;
      ghost var start, before := engine.actors, Placement();
      PlanIndices(Plan(), cursor);
      NotYetPlaced(Plan(), before);
      var idx := order[cursor];
      cursor := cursor + 1;
      var made := SpawnPiece(engine, idx);
      Finish(engine, idx, made);
      ghost var a, f := Attempts(Plan(), idx, made), Finals(Plan(), idx, made, spawned);
      assert NextEvents(Plan(), before, made) == a + f;
      ReplayAppend(engine.groupsOf, start, a, f);
      CountAppend(a, f);
      assert engine.trace == old(engine.trace) + (a + f);
      Note(before, made);
    }

    /** The spawn call, unless the class is missing, and its entry in the table. */
    method SpawnPiece(engine: Engine, idx: nat) returns (made: Option<ActorId>)
      requires IsPlan(Plan()) && ClassesInRange(bp) && idx < |bp.pieces| == |spawned| && spawned[idx].None?
      requires engine.Valid() && Alive(engine)
      modifies `spawned, `failed, engine
      ensures engine.Valid() && Alive(engine)
      ensures !Resolved(Plan(), idx) ==> made.None?
      ensures made.Some? ==> made !in old(spawned) && made.value !in old(engine.actors) && made.value in engine.actors
      ensures old(engine.actors).Keys <= engine.actors.Keys
      ensures spawned == old(spawned)[idx := made]
      ensures failed == old(failed) + if made.None? then 1 else 0
      ensures engine.trace == old(engine.trace) + Attempts(Plan(), idx, made)
      ensures engine.actors == Replay(engine.groupsOf, old(engine.actors), Attempts(Plan(), idx, made))
      ensures CountFloors(Attempts(Plan(), idx, made)) == 0
    {
      ReplayNone(engine.groupsOf, engine.actors);
      made := None;
      var piece := bp.pieces[idx];
      if resolved[piece.classIndex] {
        ghost var start := engine.actors;
        made := engine.SpawnActorInWorld(bp.classes[piece.classIndex], SpawnPoint(opts, piece),
                                         SpawnRotation(opts, piece));
        ReplaySingle(engine.groupsOf, start, Attempts(Plan(), idx, made)[0]);
        CountSingle(Attempts(Plan(), idx, made)[0]);
      }
      if made.None? {
        failed := failed + 1;
      } else {
        spawned := spawned[idx := made];
      }
    }

    /** The finalizer call, with the floor a mounted item sits on. */
    method Finish(engine: Engine, idx: nat, made: Option<ActorId>)
      requires engine.Valid() && Alive(engine) && (made.Some? ==> made.value in engine.actors)
      requires idx < |bp.pieces|
      modifies `floorsRestored, engine
      ensures engine.Valid() && Alive(engine) && old(engine.actors).Keys <= engine.actors.Keys
      ensures engine.trace == old(engine.trace) + Finals(Plan(), idx, made, spawned)
      ensures engine.actors == Replay(engine.groupsOf, old(engine.actors), Finals(Plan(), idx, made, spawned))
      ensures floorsRestored == old(floorsRestored) + CountFloors(Finals(Plan(), idx, made, spawned))
    {
      hide Replay, CountFloors;
      CountNone();
      ReplayNone(engine.groupsOf, engine.actors);
      if made.None? || opts.invulnerable { return; }
      ghost var start := engine.actors;
      var piece := bp.pieces[idx];
      var floor: Option<ActorId> := None;
      if 0 <= piece.floor < |spawned| {
        floor := spawned[piece.floor];
      }
      engine.NonPlayerFinalStructurePlacement(made.value, opts.team, opts.ownerId, floor);
      if floor.Some? { floorsRestored := floorsRestored + 1; }
      ghost var final := Finals(Plan(), idx, made, spawned)[0];
      ReplaySingle(engine.groupsOf, start, final);
      CountSingle(final);
    }

    /** Ghost bookkeeping: the placement begun in the state `before` was answered with `made`. */
    ghost method Note(before: Placement, made: Option<ActorId>)
      requires IsPlacement(Plan(), before) && |before.answers| < |order| == |before.spawned|
      requires !Resolved(Plan(), order[|before.answers|]) ==> made.None?
      requires made.Some? ==> made !in before.spawned
      requires spawned == before.spawned[order[|before.answers|] := made]
      requires failed == before.failed + if made.None? then 1 else 0
      requires floorsRestored == before.floors + CountFloors(NextEvents(Plan(), before, made))
      requires answers == before.answers && log == PlaceTrace(Plan(), answers, |answers|)
      requires phase == Placing && linkCursor == linkSub == linksMade == 0 && cursor == |answers| + 1
      modifies `answers, `log
      ensures IsPlacing() && answers == before.answers + [made]
      ensures old(log) <= log && log[|old(log)|..] == NextEvents(Plan(), before, made)
    {
      hide IsPermutation, IsBottomUp, ClassesInRange, SpawnedAfter, PlaceTrace, CountSome, CountFloors, NextEvents;
      PlacementAdvances(Plan(), before, made);
      log := log + NextEvents(Plan(), before, made);
      answers := answers + [made];
    }

    /** One round of the linking loop: one edge, or one step to the next piece. */
    method LinkNext(engine: Engine)
      requires IsLinking() && linkCursor < |bp.pieces| && engine.Valid() && Alive(engine)
      modifies `linkCursor, `linkSub, `linksMade, `log, engine
      ensures IsLinking() && Done() == old(Done()) + 1 && engine.Valid() && Alive(engine)
      ensures old(engine.actors).Keys <= engine.actors.Keys
      ensures old(log) <= log && engine.trace == old(engine.trace) + log[|old(log)|..]
      ensures engine.actors == Replay(engine.groupsOf, old(engine.actors), log[|old(log)|..])
    {
      hide IsPlacement, PlaceTrace, LinksSoFar, WorkDone, Work, CountLinks, Replay, LinkTrace, Edges;
      ReplayNone(engine.groupsOf, engine.actors);
      var idx := linkCursor;
      var actor := spawned[idx];
      var links := bp.pieces[idx].links;
      if actor.None? || linkSub >= |links| {
        LeavingPiece(bp.pieces, spawned, linkCursor, linkSub);
        linkCursor := linkCursor + 1;
        linkSub := 0;
        return;
      }
      MakingEdge(bp.pieces, spawned, linkCursor, linkSub);
      ghost var edge := EdgeEvent(actor.value, links[linkSub], spawned);
      CountAppend(LinksSoFar(bp.pieces, spawned, linkCursor, linkSub), edge);
      CountNone();
      var target := links[linkSub];
      linkSub := linkSub + 1;
      log := log + edge;
      if target < 0 || target >= |spawned| { return; }
      var other := spawned[target];
      if other.None? { return; }
      ReplaySingle(engine.groupsOf, engine.actors, Link(actor.value, other.value));
      CountSingle(Link(actor.value, other.value));
      engine.LinkStructure(actor.value, other.value);
      linksMade := linksMade + 1;
    }

    /** The calls and the world since the log read `log0`. */
    ghost predicate Since(engine: Engine, log0: seq<Event>, trace0: seq<Event>, actors0: Actors)
      reads `log, engine
    {
      log0 <= log && engine.trace == trace0 + log[|log0|..] &&
      engine.actors == Replay(engine.groupsOf, actors0, log[|log0|..])
    }

    /** The placing half of a tick. */
    method TickPlacing(engine: Engine)
      requires Valid() && phase == Placing && ClassesInRange(bp) && engine.Valid() && Alive(engine)
      modifies this, engine
      ensures PlacedRight() && engine.Valid() && Alive(engine)
      ensures opts.perTick >= 1 ==> cursor == Smaller(old(cursor) + opts.perTick, |order|)
      ensures opts.perTick <= 0 ==> cursor == Smaller(old(cursor) + 25, |order|)
      ensures old(answers) <= answers && AreNewSince(answers, old(cursor), old(engine.actors))
      ensures old(engine.actors).Keys <= engine.actors.Keys
      ensures Since(engine, old(log), old(engine.trace), old(engine.actors))
      ensures cursor < |order| || opts.invulnerable ==> IsPlacing()
      ensures cursor == |order| && !opts.invulnerable ==> IsLinking() && linkCursor < |bp.pieces| && Done() == 0
    {
      hide IsPlacement, PlaceTrace, LinksSoFar, Replay;
      ghost var log0, trace0, actors0, cursor0 := log, engine.trace, engine.actors, cursor;
      ReplayNone(engine.groupsOf, actors0);
      var budget := Budget(opts);
      var placed := 0;
      while placed < budget && cursor < |order|
        invariant placed <= budget && cursor == cursor0 + placed <= |order|
        invariant IsPlacing() && engine.Valid() && Alive(engine)
        invariant old(answers) <= answers && AreNewSince(answers, cursor0, actors0)
        invariant actors0.Keys <= engine.actors.Keys
        invariant Since(engine, log0, trace0, actors0)
        decreases budget - placed
      {
        ghost var before, world := log, engine.actors;
        PlaceNext(engine);
        ExtendReplay(engine.groupsOf, actors0, log0, before, log);
        placed := placed + 1;
      }
      if cursor >= |order| && !opts.invulnerable {
        NothingLinked(bp.pieces, spawned);
        PlacementShape(Plan(), Placement());
        assert log == PlaceTrace(Plan(), answers, cursor) + [];
        phase := Linking;
      }
    }

    /** The linking half of a tick. */
    method TickLinking(engine: Engine)
      requires Valid() && phase == Linking && engine.Valid() && Alive(engine)
      modifies `linkCursor, `linkSub, `linksMade, `log, engine
      ensures IsLinking() && engine.Valid() && Alive(engine)
      ensures opts.perTick >= 1 ==>
                Done() == Smaller(old(Done()) + opts.perTick, Work(bp.pieces, spawned, |bp.pieces|))
      ensures opts.perTick <= 0 ==> Done() == Smaller(old(Done()) + 25, Work(bp.pieces, spawned, |bp.pieces|))
      ensures old(engine.actors).Keys <= engine.actors.Keys
      ensures Since(engine, old(log), old(engine.trace), old(engine.actors))
    {
      hide IsPlacement, PlaceTrace, LinksSoFar, WorkDone, Work, Replay;
      ghost var log0, trace0, actors0, done0 := log, engine.trace, engine.actors, Done();
      ReplayNone(engine.groupsOf, actors0);
      var budget := Budget(opts);
      var done := 0;
      while done < budget && linkCursor < |bp.pieces|
        invariant done <= budget && IsLinking() && Done() == done0 + done
        invariant engine.Valid() && Alive(engine) && actors0.Keys <= engine.actors.Keys
        invariant Since(engine, log0, trace0, actors0)
        decreases budget - done
      {
        ghost var before, world := log, engine.actors;
        LinkNext(engine);
        ExtendReplay(engine.groupsOf, actors0, log0, before, log);
        done := done + 1;
      }
      WorkLeft(bp.pieces, spawned, linkCursor, linkSub);
    }

    /** At the end, whatever the budget was, the calls made are those of the one-shot pass. */
    lemma EndIsOneShot()
      requires AtEnd()
      ensures AreAnswers(Plan(), answers) && |answers| == |order|
      ensures spawned == Spawned(Plan(), answers)
      ensures log == OneShot(Plan(), answers)
    {
      PlacementShape(Plan(), Placement());
      OneShotIsBoth(Plan(), answers);
    }
  }
}
