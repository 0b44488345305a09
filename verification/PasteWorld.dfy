/**
 * What the one-shot pass of module PasteSpec leaves behind in the world: the spawned actors, where
 * they stand, what they are, and the links among them.  Actors that were there before are untouched.
 */
module PasteWorld {
  import opened Wrappers
  import opened Model
  import opened World
  import opened PasteSpec

  type Groups = string -> set<Group>

  function ClassPath(bp: Blueprint, p: Piece): string
    requires 0 <= p.classIndex < |bp.classes|
  {
    bp.classes[p.classIndex]
  }

  /** The actor as it was spawned for piece `i`. */
  predicate IsSpawnOf(groupsOf: Groups, plan: Plan, i: nat, a: Actor)
    requires IsPlan(plan) && i < |plan.bp.pieces|
  {
    var p := plan.bp.pieces[i];
    0 <= p.classIndex < |plan.bp.classes| && a.path == ClassPath(plan.bp, p) && a.groups == groupsOf(a.path) &&
    a.transform == Some(Transform(SpawnPoint(plan.opts, p), SpawnRotation(plan.opts, p)))
  }

  /** The floor the actor of placement `k` is finalised with, from the table of that moment. */
  function FloorGiven(plan: Plan, answers: Answers, k: nat): Option<ActorId>
    requires AreAnswers(plan, answers) && k < |answers|
  {
    if plan.opts.invulnerable then None
    else FloorActor(plan.bp.pieces[plan.order[k]], SpawnedAfter(plan.order, answers, k + 1))
  }

  /** The world after the first `k` placements. */
  predicate IsPlaced(groupsOf: Groups, plan: Plan, answers: Answers, k: nat, w: Actors, after: Actors)
    requires AreAnswers(plan, answers) && k <= |answers|
  {
    (forall id :: id in w ==> id in after && after[id] == w[id]) &&
    (forall id :: id in after ==> id in w || Some(id) in answers[..k]) &&
    (forall j :: 0 <= j < k && answers[j].Some? ==>
       answers[j].value in after && after[answers[j].value].linked == [] &&
       after[answers[j].value].floor == FloorGiven(plan, answers, j) &&
       IsSpawnOf(groupsOf, plan, plan.order[j], after[answers[j].value]))
  }

  /** One placement adds at most its own actor. */
  lemma PlaceEffect(groupsOf: Groups, plan: Plan, answers: Answers, k: nat, mid: Actors)
    requires AreAnswers(plan, answers) && k < |answers|
    ensures var after := Replay(groupsOf, mid, PlaceEvents(plan, answers, k));
            (answers[k].None? ==> after == mid) &&
            (answers[k].Some? ==>
               var id := answers[k].value;
               after.Keys == mid.Keys + {id} &&
               (forall other :: other in mid && other != id ==> after[other] == mid[other]) &&
               after[id].linked == [] && after[id].floor == FloorGiven(plan, answers, k) &&
               IsSpawnOf(groupsOf, plan, plan.order[k], after[id]))
  {
    PlanIndices(plan, k);
    hide IsPermutation, IsBottomUp, ClassesInRange, SpawnedAfter, Replay, SpawnPoint, SpawnRotation, FloorActor;
    var i := plan.order[k];
    var attempts := Attempts(plan, i, answers[k]);
    var finals := Finals(plan, i, answers[k], SpawnedAfter(plan.order, answers, k + 1));
    ReplayAppend(groupsOf, mid, attempts, finals);
    var spawned := Replay(groupsOf, mid, attempts);
    ReplayNone(groupsOf, mid);
    ReplayNone(groupsOf, spawned);
    if attempts != [] { ReplaySingle(groupsOf, mid, attempts[0]); }
    if finals != [] { ReplaySingle(groupsOf, spawned, finals[0]); }
  }

  lemma AnswerIsNew(plan: Plan, answers: Answers, k: nat)
    requires AreAnswers(plan, answers) && k < |answers| && answers[k].Some?
    ensures answers[k] !in answers[..k]
  {
  }

  lemma PlaceOne(groupsOf: Groups, plan: Plan, answers: Answers, k: nat, w: Actors, mid: Actors)
    requires AreAnswers(plan, answers) && k < |answers| && AreNewSince(answers, 0, w)
    requires IsPlaced(groupsOf, plan, answers, k, w, mid)
    ensures IsPlaced(groupsOf, plan, answers, k + 1, w, Replay(groupsOf, mid, PlaceEvents(plan, answers, k)))
  {
    hide AreAnswers, IsPlan, PlaceEvents, Replay, IsSpawnOf, FloorGiven;
    PlaceEffect(groupsOf, plan, answers, k, mid);
    assert answers[..k + 1] == answers[..k] + [answers[k]];
    if answers[k].Some? {
      AnswerIsNew(plan, answers, k);
      var after := Replay(groupsOf, mid, PlaceEvents(plan, answers, k));
      forall j | 0 <= j < k && answers[j].Some?
        ensures answers[j] in answers[..k] && after[answers[j].value] == mid[answers[j].value]
      {
        assert answers[..k][j] == answers[j];
      }
    }
  }

  lemma NonePlaced(groupsOf: Groups, plan: Plan, answers: Answers, w: Actors)
    requires AreAnswers(plan, answers)
    ensures IsPlaced(groupsOf, plan, answers, 0, w, Replay(groupsOf, w, []))
  {
  }

  lemma {:induction false} PlaceAll(groupsOf: Groups, plan: Plan, answers: Answers, k: nat, w: Actors)
    requires AreAnswers(plan, answers) && k <= |answers| && AreNewSince(answers, 0, w)
    ensures IsPlaced(groupsOf, plan, answers, k, w, Replay(groupsOf, w, PlaceTrace(plan, answers, k)))
  {
    hide IsPlan, IsPermutation, IsBottomUp, ClassesInRange, PlaceEvents, Replay, IsPlaced;
    NonePlaced(groupsOf, plan, answers, w);
    if k > 0 {
      PlaceAll(groupsOf, plan, answers, k - 1, w);
      PlaceOne(groupsOf, plan, answers, k - 1, w, Replay(groupsOf, w, PlaceTrace(plan, answers, k - 1)));
      ReplayAppend(groupsOf, w, PlaceTrace(plan, answers, k - 1), PlaceEvents(plan, answers, k - 1));
    }
  }

  // ----- links -----

  /** What a list of calls appends to the link list of one actor. */
  function Targets(events: seq<Event>, id: ActorId): seq<Option<ActorId>> {
    if events == [] then []
    else
      var e := events[|events| - 1];
      Targets(events[..|events| - 1], id) + if e.Link? && e.from == id then [Some(e.to)] else []
  }

  lemma {:induction false} TargetsAppend(a: seq<Event>, b: seq<Event>, id: ActorId)
    ensures Targets(a + b, id) == Targets(a, id) + Targets(b, id)
  {
    hide Targets;
    NothingTargetsAny();
    if b == [] {
      assert a + b == a;
    } else {
      var n := |b| - 1;
      TargetsAppend(a, b[..n], id);
      assert a + b == (a + b[..n]) + [b[n]] && b == b[..n] + [b[n]];
      TargetsNext(a + b[..n], b[n], id);
      TargetsNext(b[..n], b[n], id);
    }
  }

  lemma TargetsNext(events: seq<Event>, e: Event, id: ActorId)
    ensures Targets(events + [e], id)
            == if e.Link? && e.from == id then Targets(events, id) + [Some(e.to)] else Targets(events, id)
  {
    assert (events + [e])[..|events|] == events;
  }

  predicate AllLinks(events: seq<Event>) {
    forall k :: 0 <= k < |events| ==> events[k].Link?
  }

  lemma AllLinksAppend(a: seq<Event>, b: seq<Event>)
    requires AllLinks(a) && AllLinks(b)
    ensures AllLinks(a + b)
  {
  }

  lemma NothingTargets(id: ActorId)
    ensures Targets([], id) == [] && AllLinks([])
  {
  }

  /** The same actors, with nothing changed but what the calls append to each link list. */
  ghost predicate AreLinked(w: Actors, after: Actors, events: seq<Event>) {
    after.Keys == w.Keys && forall id :: id in w ==> after[id] == w[id].(linked := w[id].linked + Targets(events, id))
  }

  lemma NoneLinked(w: Actors)
    ensures AreLinked(w, w, [])
  {
  }

  lemma OneMoreLinked(groupsOf: Groups, w: Actors, mid: Actors, events: seq<Event>, e: Event)
    requires AreLinked(w, mid, events) && e.Link?
    ensures AreLinked(w, Step(groupsOf, mid, e), events + [e])
  {
    hide Targets;
    forall id: ActorId
      ensures Targets(events + [e], id)
              == if e.from == id then Targets(events, id) + [Some(e.to)] else Targets(events, id)
    {
      TargetsNext(events, e, id);
    }
  }

  /** Link calls only append to the link lists of actors that exist. */
  lemma {:induction false} LinksReplay(groupsOf: Groups, w: Actors, events: seq<Event>)
    requires AllLinks(events)
    ensures AreLinked(w, Replay(groupsOf, w, events), events)
  {
    hide AreLinked, Step;
    if events == [] {
      NoneLinked(w);
    } else {
      var n := |events| - 1;
      LinksReplay(groupsOf, w, events[..n]);
      OneMoreLinked(groupsOf, w, Replay(groupsOf, w, events[..n]), events[..n], events[n]);
      assert events == events[..n] + [events[n]];
    }
  }

  lemma NothingTargetsAny()
    ensures forall id: ActorId :: Targets([], id) == []
  {
  }

  /** The actors of the pieces a link list names, in its order, without the missing ones. */
  function LinkImage(links: seq<int>, spawned: Answers, m: nat): seq<Option<ActorId>>
    requires m <= |links|
  {
    if m == 0 then []
    else LinkImage(links, spawned, m - 1) + EdgeImage(links[m - 1], spawned)
  }

  /** The actor one link names, if it was spawned. */
  function EdgeImage(target: int, spawned: Answers): seq<Option<ActorId>> {
    if 0 <= target < |spawned| && spawned[target].Some? then [spawned[target]] else []
  }

  lemma TargetsOfEdge(from: ActorId, target: int, spawned: Answers, id: ActorId)
    ensures AllLinks(EdgeEvent(from, target, spawned))
    ensures Targets(EdgeEvent(from, target, spawned), id) == if id == from then EdgeImage(target, spawned) else []
  {
    var e := EdgeEvent(from, target, spawned);
    if e != [] { assert e[..|e| - 1] == []; }
  }

  lemma {:induction false} TargetsOfEdges(from: ActorId, links: seq<int>, spawned: Answers, m: nat, id: ActorId)
    requires m <= |links|
    ensures AllLinks(Edges(from, links, spawned, m))
    ensures Targets(Edges(from, links, spawned, m), id) == if id == from then LinkImage(links, spawned, m) else []
  {
    hide AllLinks, Targets, EdgeEvent, EdgeImage;
    NothingTargets(id);
    if m > 0 {
      TargetsOfEdges(from, links, spawned, m - 1, id);
      TargetsOfEdge(from, links[m - 1], spawned, id);
      TargetsAppend(Edges(from, links, spawned, m - 1), EdgeEvent(from, links[m - 1], spawned), id);
      AllLinksAppend(Edges(from, links, spawned, m - 1), EdgeEvent(from, links[m - 1], spawned));
    }
  }

  lemma TargetsOfPiece(pieces: seq<Piece>, spawned: Answers, k: nat, id: ActorId)
    requires k < |pieces| == |spawned|
    ensures AllLinks(PieceEdges(pieces, spawned, k))
    ensures Targets(PieceEdges(pieces, spawned, k), id)
            == if spawned[k] == Some(id) then LinkImage(pieces[k].links, spawned, |pieces[k].links|) else []
  {
    if spawned[k].Some? {
      TargetsOfEdges(spawned[k].value, pieces[k].links, spawned, |pieces[k].links|, id);
    }
  }

  /** The whole link phase gives the actor of piece `i` the image of the piece's link list. */
  lemma {:induction false} TargetsOfTrace(pieces: seq<Piece>, spawned: Answers, n: nat, i: nat)
    requires n <= |pieces| == |spawned| && DistinctSpawned(spawned) && i < |pieces| && spawned[i].Some?
    ensures AllLinks(LinkTrace(pieces, spawned, n))
    ensures Targets(LinkTrace(pieces, spawned, n), spawned[i].value)
            == if i < n then LinkImage(pieces[i].links, spawned, |pieces[i].links|) else []
  {
    hide PieceEdges, LinkImage, Targets, AllLinks;
    NothingTargets(spawned[i].value);
    if n > 0 {
      TargetsOfTrace(pieces, spawned, n - 1, i);
      TargetsOfPiece(pieces, spawned, n - 1, spawned[i].value);
      AllLinksAppend(LinkTrace(pieces, spawned, n - 1), PieceEdges(pieces, spawned, n - 1));
      TargetsAppend(LinkTrace(pieces, spawned, n - 1), PieceEdges(pieces, spawned, n - 1), spawned[i].value);
      if i != n - 1 { assert spawned[i] != spawned[n - 1]; }
    }
  }

  lemma {:induction false} NoTargetsOfOthers(pieces: seq<Piece>, spawned: Answers, n: nat, id: ActorId)
    requires n <= |pieces| == |spawned| && Some(id) !in spawned
    ensures AllLinks(LinkTrace(pieces, spawned, n))
    ensures Targets(LinkTrace(pieces, spawned, n), id) == []
  {
    hide PieceEdges, LinkImage, Targets, AllLinks;
    NothingTargets(id);
    if n > 0 {
      NoTargetsOfOthers(pieces, spawned, n - 1, id);
      TargetsOfPiece(pieces, spawned, n - 1, id);
      AllLinksAppend(LinkTrace(pieces, spawned, n - 1), PieceEdges(pieces, spawned, n - 1));
      TargetsAppend(LinkTrace(pieces, spawned, n - 1), PieceEdges(pieces, spawned, n - 1), id);
    }
  }

  // ----- the whole paste -----

  /** Piece `a` is placed no later than piece `b`. */
  predicate PlacedNoLater(order: seq<nat>, a: int, b: nat) {
    exists j, k :: 0 <= j <= k < |order| && order[j] == a && order[k] == b
  }

  /** The floor the actor of piece `i` ends up with: its floor piece's actor, if that came first. */
  function FloorOf(plan: Plan, spawned: Answers, i: nat): Option<ActorId>
    requires i < |plan.bp.pieces| == |spawned|
  {
    var f := plan.bp.pieces[i].floor;
    if !plan.opts.invulnerable && 0 <= f < |spawned| && PlacedNoLater(plan.order, f, i) then spawned[f] else None
  }

  /** The table of the moment and the final one agree on every floor that is passed. */
  lemma FloorOfPlacement(plan: Plan, answers: Answers, k: nat)
    requires AreAnswers(plan, answers) && |answers| == |plan.order| && k < |answers|
    ensures FloorGiven(plan, answers, k) == FloorOf(plan, Spawned(plan, answers), plan.order[k])
  {
    hide IsBottomUp, ClassesInRange;
    var f := plan.bp.pieces[plan.order[k]].floor;
    if 0 <= f < |plan.order| {
      var j := LookupAfter(plan.order, answers, k, f);
      SpawnedAfterAt(plan.order, answers, |answers|, j);
      NoLaterIff(plan.order, j, k);
    }
  }

  lemma NoLaterIff(order: seq<nat>, j: nat, k: nat)
    requires IsPermutation(order) && j < |order| && k < |order|
    ensures PlacedNoLater(order, order[j], order[k]) <==> j <= k
  {
    if PlacedNoLater(order, order[j], order[k]) {
      var a, b :| 0 <= a <= b < |order| && order[a] == order[j] && order[b] == order[k];
      assert a == j && b == k;
    }
  }

  /** The world a finished paste leaves: old actors as they were, and the build with its floors and links. */
  ghost predicate IsPasted(groupsOf: Groups, plan: Plan, spawned: Answers, w: Actors, after: Actors)
    requires IsPlan(plan) && |spawned| == |plan.bp.pieces|
  {
    (forall id :: id in w ==> id in after && after[id] == w[id] && Some(id) !in spawned) &&
    (forall id :: id in after ==> id in w || Some(id) in spawned) &&
    (forall i :: 0 <= i < |spawned| && spawned[i].Some? ==>
       spawned[i].value in after && IsSpawnOf(groupsOf, plan, i, after[spawned[i].value]) &&
       after[spawned[i].value].floor == FloorOf(plan, spawned, i) &&
       after[spawned[i].value].linked ==
         if plan.opts.invulnerable then []
         else LinkImage(plan.bp.pieces[i].links, spawned, |plan.bp.pieces[i].links|))
  }

  lemma SpawnedMembers(plan: Plan, answers: Answers)
    requires AreAnswers(plan, answers) && |answers| == |plan.order|
    ensures DistinctSpawned(Spawned(plan, answers))
    ensures forall id :: Some(id) in Spawned(plan, answers) <==> Some(id) in answers
    ensures forall j :: 0 <= j < |answers| ==> Spawned(plan, answers)[plan.order[j]] == answers[j]
  {
    var spawned := Spawned(plan, answers);
    forall j | 0 <= j < |answers|
      ensures spawned[plan.order[j]] == answers[j]
    {
      SpawnedAfterAt(plan.order, answers, |answers|, j);
    }
    forall i, j | 0 <= i < j < |spawned| && spawned[i].Some?
      ensures spawned[i] != spawned[j]
    {
      SpawnedAreDistinct(plan, answers, i, j);
    }
    forall id | Some(id) in spawned
      ensures Some(id) in answers
    {
      var i :| 0 <= i < |spawned| && spawned[i] == Some(id);
      var j := PositionOf(plan.order, i);
      assert answers[j] == Some(id);
    }
    forall id | Some(id) in answers
      ensures Some(id) in spawned
    {
      var j :| 0 <= j < |answers| && answers[j] == Some(id);
      assert spawned[plan.order[j]] == Some(id);
    }
  }

  /** The link calls of a whole paste. */
  function AllEdges(plan: Plan, spawned: Answers): seq<Event>
    requires |spawned| == |plan.bp.pieces|
  {
    if plan.opts.invulnerable then [] else LinkTrace(plan.bp.pieces, spawned, |plan.bp.pieces|)
  }

  lemma AllEdgesTargets(plan: Plan, spawned: Answers)
    requires |spawned| == |plan.bp.pieces| && DistinctSpawned(spawned)
    ensures AllLinks(AllEdges(plan, spawned))
    ensures forall id: ActorId :: Some(id) !in spawned ==> Targets(AllEdges(plan, spawned), id) == []
    ensures forall i :: 0 <= i < |spawned| && spawned[i].Some? ==>
              Targets(AllEdges(plan, spawned), spawned[i].value) ==
              if plan.opts.invulnerable then []
              else LinkImage(plan.bp.pieces[i].links, spawned, |plan.bp.pieces[i].links|)
  {
    hide LinkTrace, LinkImage, Targets, AllLinks;
    NothingTargets(0);
    LinkTraceLinks(plan.bp.pieces, spawned, |spawned|);
    forall id: ActorId | Some(id) !in spawned
      ensures Targets(AllEdges(plan, spawned), id) == []
    {
      NothingTargets(id);
      NoTargetsOfOthers(plan.bp.pieces, spawned, |spawned|, id);
    }
    forall i | 0 <= i < |spawned| && spawned[i].Some?
      ensures Targets(AllEdges(plan, spawned), spawned[i].value) ==
              if plan.opts.invulnerable then []
              else LinkImage(plan.bp.pieces[i].links, spawned, |plan.bp.pieces[i].links|)
    {
      NothingTargets(spawned[i].value);
      TargetsOfTrace(plan.bp.pieces, spawned, |spawned|, i);
    }
  }

  /** Between the two phases: everything is placed, nothing is linked. */
  ghost predicate IsBuilt(groupsOf: Groups, plan: Plan, spawned: Answers, w: Actors, mid: Actors)
    requires IsPlan(plan) && |spawned| == |plan.bp.pieces|
  {
    (forall id :: id in w ==> id in mid && mid[id] == w[id] && Some(id) !in spawned) &&
    (forall id :: id in mid ==> id in w || Some(id) in spawned) &&
    (forall i :: 0 <= i < |spawned| && spawned[i].Some? ==>
       spawned[i].value in mid && IsSpawnOf(groupsOf, plan, i, mid[spawned[i].value]) &&
       mid[spawned[i].value].floor == FloorOf(plan, spawned, i) && mid[spawned[i].value].linked == [])
  }

  lemma PlacingBuilds(groupsOf: Groups, plan: Plan, answers: Answers, w: Actors)
    requires AreAnswers(plan, answers) && |answers| == |plan.order| && AreNewSince(answers, 0, w)
    ensures IsBuilt(groupsOf, plan, Spawned(plan, answers), w,
                    Replay(groupsOf, w, PlaceTrace(plan, answers, |answers|)))
  {
    hide IsPermutation, IsBottomUp, ClassesInRange, PlaceTrace, Replay, IsSpawnOf, Spawned, FloorOf, FloorGiven;
    var spawned := Spawned(plan, answers);
    PlaceAll(groupsOf, plan, answers, |answers|, w);
    SpawnedMembers(plan, answers);
    assert answers[..|answers|] == answers;
    forall id | id in w
      ensures Some(id) !in spawned
    {
      assert Some(id) !in answers;
    }
    var mid := Replay(groupsOf, w, PlaceTrace(plan, answers, |answers|));
    forall i | 0 <= i < |spawned| && spawned[i].Some?
      ensures spawned[i].value in mid && IsSpawnOf(groupsOf, plan, i, mid[spawned[i].value])
      ensures mid[spawned[i].value].floor == FloorOf(plan, spawned, i) && mid[spawned[i].value].linked == []
    {
      var j := PositionOf(plan.order, i);
      FloorOfPlacement(plan, answers, j);
      assert answers[j] == spawned[i];
    }
  }

  lemma SpawnOfLinked(groupsOf: Groups, plan: Plan, i: nat, a: Actor, linked: seq<Option<ActorId>>)
    requires IsPlan(plan) && i < |plan.bp.pieces| && IsSpawnOf(groupsOf, plan, i, a)
    ensures IsSpawnOf(groupsOf, plan, i, a.(linked := linked))
  {
  }

  lemma LinkingFinishes(groupsOf: Groups, plan: Plan, spawned: Answers, w: Actors, mid: Actors)
    requires IsPlan(plan) && |spawned| == |plan.bp.pieces| && DistinctSpawned(spawned)
    requires IsBuilt(groupsOf, plan, spawned, w, mid)
    ensures IsPasted(groupsOf, plan, spawned, w, Replay(groupsOf, mid, AllEdges(plan, spawned)))
  {
    hide IsPlan, Replay, IsSpawnOf, Targets, AllLinks, AllEdges, LinkImage, FloorOf;
    var edges := AllEdges(plan, spawned);
    AllEdgesTargets(plan, spawned);
    LinksReplay(groupsOf, mid, edges);
    var after := Replay(groupsOf, mid, edges);
    forall i | 0 <= i < |spawned| && spawned[i].Some?
      ensures spawned[i].value in after && IsSpawnOf(groupsOf, plan, i, after[spawned[i].value])
    {
      SpawnOfLinked(groupsOf, plan, i, mid[spawned[i].value], after[spawned[i].value].linked);
    }
  }

  lemma OneShotParts(plan: Plan, answers: Answers)
    requires AreAnswers(plan, answers) && |answers| == |plan.order|
    ensures OneShot(plan, answers) == PlaceTrace(plan, answers, |answers|) + AllEdges(plan, Spawned(plan, answers))
  {
  }

  /** The one-shot pass leaves the world as `IsPasted` says. */
  lemma OneShotLeaves(groupsOf: Groups, plan: Plan, answers: Answers, w: Actors)
    requires AreAnswers(plan, answers) && |answers| == |plan.order| && AreNewSince(answers, 0, w)
    ensures IsPasted(groupsOf, plan, Spawned(plan, answers), w, Replay(groupsOf, w, OneShot(plan, answers)))
  {
    hide IsPlan, Replay, PlaceTrace, AllEdges, OneShot, IsBuilt, IsPasted;
    OneShotParts(plan, answers);
    PlacingBuilds(groupsOf, plan, answers, w);
    SpawnedMembers(plan, answers);
    ReplayAppend(groupsOf, w, PlaceTrace(plan, answers, |answers|), AllEdges(plan, Spawned(plan, answers)));
    LinkingFinishes(groupsOf, plan, Spawned(plan, answers), w,
                    Replay(groupsOf, w, PlaceTrace(plan, answers, |answers|)));
  }

  lemma {:induction false} LinkTraceLinks(pieces: seq<Piece>, spawned: Answers, n: nat)
    requires n <= |pieces| == |spawned|
    ensures AllLinks(LinkTrace(pieces, spawned, n))
  {
    hide PieceEdges, AllLinks;
    NothingTargets(0);
    if n > 0 {
      LinkTraceLinks(pieces, spawned, n - 1);
      TargetsOfPiece(pieces, spawned, n - 1, 0);
      AllLinksAppend(LinkTrace(pieces, spawned, n - 1), PieceEdges(pieces, spawned, n - 1));
    }
  }
}
