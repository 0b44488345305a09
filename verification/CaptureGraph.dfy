/**
 * What a capture promises: it misses nothing and counts everything, its class dictionary is exact,
 * and its links are the induced subgraph of the captured actors.
 */
module CaptureGraph {
  import opened Wrappers
  import opened Geometry
  import opened World
  import opened Capture

  // ----- completeness and accounting -----

  /** Everything the octree returned is outside the box, unreadable, without a path, or a piece. */
  lemma EveryActorIsAccountedFor(w: Actors, box: Box, ids: seq<ActorId>)
    requires forall id :: id in ids ==> id in w
    requires Kept(w, box, ids) != []
    ensures var stats := StatsOf(w, box, ids);
            stats.octreeReturned
              == CountIf(w, ids, a => IsOutside(box, a)) + stats.noTransform + stats.noPath + stats.captured &&
            stats.inBox == stats.noPath + stats.captured
  {
    CollectedSplit(w, box, ids);
  }

  function CountRefs(refs: seq<Option<ActorId>>, among: ActorId -> bool): nat {
    if refs == [] then 0
    else CountRefs(refs[..|refs| - 1], among)
         + if refs[|refs| - 1].Some? && among(refs[|refs| - 1].value) then 1 else 0
  }

  /** Every non-null reference of a captured actor is a link, outside, itself, or to a skipped one. */
  lemma {:induction false} EveryReferenceIsAccountedFor(refs: seq<Option<ActorId>>, kept: seq<ActorId>,
                                                        captured: seq<ActorId>, self: ActorId)
    requires self in captured && forall id :: id in captured ==> id in kept
    ensures CountRefs(refs, id => true)
            == |LinkIndices(refs, captured, self)| + CountOutside(refs, kept)
               + CountRefs(refs, id => id == self) + CountRefs(refs, id => id in kept && id !in captured)
  {
    if refs != [] { EveryReferenceIsAccountedFor(refs[..|refs| - 1], kept, captured, self); }
  }

  // ----- classes -----

  /** The dictionary has no duplicates, each entry is used, and each piece finds its own path. */
  lemma DictionaryIsExact(w: Actors, captured: seq<ActorId>, lo: Vec, k: nat)
    requires AreReadable(w, captured) && k < |captured|
    ensures var classes, piece := ClassesOf(w, captured), PiecesOf(w, captured, lo)[k];
            Distinct(classes) && (forall c :: c in classes <==> exists id :: id in captured && w[id].path == c) &&
            0 <= piece.classIndex < |classes| && classes[piece.classIndex] == w[captured[k]].path
  {
    ClassesDistinct(w, captured);
  }

  // ----- links -----

  /** The references of an actor to other captured actors, in their order. */
  function InsideRefs(refs: seq<Option<ActorId>>, captured: seq<ActorId>, self: ActorId): seq<ActorId> {
    if refs == [] then []
    else InsideRefs(refs[..|refs| - 1], captured, self)
         + if refs[|refs| - 1].Some? && refs[|refs| - 1].value in captured && refs[|refs| - 1].value != self
           then [refs[|refs| - 1].value] else []
  }

  function Named(indices: seq<int>, captured: seq<ActorId>): seq<ActorId>
    requires forall m :: 0 <= m < |indices| ==> 0 <= indices[m] < |captured|
  {
    seq(|indices|, m requires 0 <= m < |indices| => captured[indices[m]])
  }

  /** Links are in range and never the piece itself; read back, they are the references in order. */
  lemma {:induction false} LinksKeepSourceOrder(refs: seq<Option<ActorId>>, captured: seq<ActorId>, self: ActorId)
    requires self in captured
    ensures var links := LinkIndices(refs, captured, self);
            (forall m :: 0 <= m < |links| ==> 0 <= links[m] < |captured| && captured[links[m]] != self) &&
            Named(links, captured) == InsideRefs(refs, captured, self)
  {
    if refs != [] { LinksKeepSourceOrder(refs[..|refs| - 1], captured, self); }
  }

  /** Piece j is linked from piece i as often as the actor of i references the actor of j. */
  lemma {:induction false} LinksCountReferences(refs: seq<Option<ActorId>>, captured: seq<ActorId>, i: nat, j: nat)
    requires Distinct(captured) && i < |captured| && j < |captured|
    ensures multiset(LinkIndices(refs, captured, captured[i]))[j]
            == if i == j then 0 else multiset(refs)[Some(captured[j])]
  {
    hide LinkIndices, Distinct;
    if refs == [] {
      NoReferences(captured, captured[i]);
    } else {
      var n := |refs| - 1;
      LinksCountReferences(refs[..n], captured, i, j);
      LinkCountNext(refs[..n], refs[n], captured, i, j);
      assert refs == refs[..n] + [refs[n]];
    }
  }

  lemma NoReferences(captured: seq<ActorId>, self: ActorId)
    ensures LinkIndices([], captured, self) == []
  {
  }

  lemma LinkCountNext(refs: seq<Option<ActorId>>, r: Option<ActorId>, captured: seq<ActorId>, i: nat, j: nat)
    requires Distinct(captured) && i < |captured| && j < |captured|
    ensures multiset(LinkIndices(refs + [r], captured, captured[i]))[j]
            == multiset(LinkIndices(refs, captured, captured[i]))[j]
               + if i != j && r == Some(captured[j]) then 1 else 0
    ensures multiset(refs + [r])[Some(captured[j])]
            == multiset(refs)[Some(captured[j])] + if r == Some(captured[j]) then 1 else 0
  {
    LinkNext(refs, r, captured, captured[i]);
    IndexOfDistinct(captured, j);
    if r.Some? && r.value in captured {
      assert captured[IndexOf(captured, r.value)] == r.value;
    }
    hide LinkIndices;
  }

  lemma LinkNext(refs: seq<Option<ActorId>>, r: Option<ActorId>, captured: seq<ActorId>, self: ActorId)
    ensures LinkIndices(refs + [r], captured, self)
            == if r.Some? && r.value in captured && r.value != self
               then LinkIndices(refs, captured, self) + [IndexOf(captured, r.value)]
               else LinkIndices(refs, captured, self)
  {
    assert (refs + [r])[..|refs|] == refs;
  }

  /** Actor a references actor b. */
  predicate Refers(w: Actors, a: ActorId, b: ActorId) {
    a in w && Some(b) in w[a].linked
  }

  /**
   * The blueprint graph is the induced subgraph: piece i links to piece j exactly when they are
   * different and the actor of i references the actor of j, whatever was skipped in between.
   */
  lemma BlueprintGraphIsInduced(w: Actors, captured: seq<ActorId>, lo: Vec, i: nat, j: nat)
    requires AreReadable(w, captured) && Distinct(captured) && i < |captured| && j < |captured|
    ensures j in PiecesOf(w, captured, lo)[i].links <==> i != j && Refers(w, captured[i], captured[j])
  {
    LinksCountReferences(w[captured[i]].linked, captured, i, j);
    var links := PiecesOf(w, captured, lo)[i].links;
    assert j in links <==> multiset(links)[j] > 0;
    assert Some(captured[j]) in w[captured[i]].linked <==> multiset(w[captured[i]].linked)[Some(captured[j])] > 0;
  }

  /** A world that mirrors every link is captured as a blueprint that mirrors every link. */
  lemma SymmetryIsKept(w: Actors, captured: seq<ActorId>, lo: Vec, i: nat, j: nat)
    requires AreReadable(w, captured) && Distinct(captured) && i < |captured| && j < |captured|
    requires forall a, b :: a in captured && b in captured ==> (Refers(w, a, b) <==> Refers(w, b, a))
    ensures j in PiecesOf(w, captured, lo)[i].links <==> i in PiecesOf(w, captured, lo)[j].links
  {
    BlueprintGraphIsInduced(w, captured, lo, i, j);
    BlueprintGraphIsInduced(w, captured, lo, j, i);
  }

  /** The floor index is the floor actor's own piece, or -1 when it was not captured. */
  lemma FloorIsItsPiece(w: Actors, captured: seq<ActorId>, lo: Vec, i: nat)
    requires AreReadable(w, captured) && Distinct(captured) && i < |captured|
    ensures var p, floor := PiecesOf(w, captured, lo)[i], w[captured[i]].floor;
            -1 <= p.floor < |captured| && p.floor != i &&
            (p.floor >= 0 <==> floor.Some? && floor.value in captured && floor.value != captured[i]) &&
            (p.floor >= 0 ==> captured[p.floor] == floor.value)
  {
    IndexOfDistinct(captured, i);
  }

  /** The remap from kept actors to pieces is increasing where it is defined, hence injective. */
  lemma RemapIncreases(w: Actors, kept: seq<ActorId>, a: nat, b: nat)
    requires Distinct(kept) && a < b < |kept| && forall id :: id in kept ==> id in w
    requires w[kept[a]].path != "" && w[kept[b]].path != ""
    ensures IndexOf(Resolvable(w, kept), kept[a]) < IndexOf(Resolvable(w, kept), kept[b])
  {
    hide Resolvable, IndexOf, Distinct;
    assert kept[a] in Resolvable(w, kept) && kept[b] in Resolvable(w, kept);
    PieceOfKept(w, kept, a);
    PieceOfKept(w, kept, b);
    assert kept[..b][..a + 1] == kept[..a + 1];
    ResolvablePrefix(w, kept[..b], a + 1);
  }
}
