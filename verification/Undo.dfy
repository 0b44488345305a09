/**
 * The undo record (src/Paste.cpp): what a finished paste writes down, how it is stored on disk,
 * and which actors an undo takes for the pieces of that paste.  Actors are found again by a
 * 10-unit position bucket and the class path, never by identity.
 */
module Undo {
  import opened Wrappers
  import opened Geometry
  import opened Json
  import opened Model
  import opened World
  import opened PasteSpec
  import Gzip

  datatype UndoItem = UndoItem(cls: int, x: real, y: real, z: real)

  datatype PasteRecord = PasteRecord(
    lo: Vec, hi: Vec, classes: seq<string>, items: seq<UndoItem>, valid: bool)

  const ORIGIN: Vec := Vec(0.0, 0.0, 0.0)

  const EMPTY_RECORD := PasteRecord(ORIGIN, ORIGIN, [], [], false)

  /** Slack around the footprint. */
  const PAD: real := 200.0

  /** The compression library, and the JSON text printer and parser. */
  datatype Files = Files(codec: Gzip.Codec, dump: Json -> Gzip.Bytes, parse: Gzip.Bytes -> Option<Json>)

  /** The gzip member of a text, when deflating it succeeds. */
  function PackedText(files: Files, text: Gzip.Bytes): Option<Gzip.Bytes> {
    var deflated := files.codec.deflate(text);
    if deflated.None? then None
    else Some(Gzip.Print(Gzip.PlainMember(files.codec, text, deflated.value)))
  }

  /** What a file holds of `s` when `n` bytes reach the disk. */
  function FirstBytes(s: Gzip.Bytes, n: nat): Gzip.Bytes {
    if n < |s| then s[..n] else s
  }

  // ----- the record of a finished paste -----

  function ItemOf(opts: PasteOptions, p: Piece): UndoItem {
    var d := Destination(opts, p);
    UndoItem(p.classIndex, d.x, d.y, d.z)
  }

  /** One item per spawned piece among the first `k`, in piece order. */
  function ItemsOf(bp: Blueprint, opts: PasteOptions, spawned: Answers, k: nat): seq<UndoItem>
    requires k <= |bp.pieces| == |spawned|
  {
    if k == 0 then []
    else ItemsOf(bp, opts, spawned, k - 1)
         + if spawned[k - 1].Some? then [ItemOf(opts, bp.pieces[k - 1])] else []
  }

  /** `diagonal` is the length of the footprint's diagonal. */
  predicate IsDiagonal(bp: Blueprint, diagonal: real) {
    diagonal >= 0.0 && diagonal * diagonal == bp.sizeX * bp.sizeX + bp.sizeY * bp.sizeY
  }

  /** The box a paste records: its footprint however it is turned, with slack. */
  function LowCorner(opts: PasteOptions, diagonal: real): Vec {
    var o := opts.origin;
    Vec(o.x - (diagonal + PAD), o.y - (diagonal + PAD), o.z - PAD)
  }

  function HighCorner(bp: Blueprint, opts: PasteOptions, diagonal: real): Vec {
    var o := opts.origin;
    Vec(o.x + (diagonal + PAD), o.y + (diagonal + PAD), o.z + bp.sizeZ + PAD)
  }

  function RecordOf(bp: Blueprint, opts: PasteOptions, spawned: Answers, diagonal: real): PasteRecord
    requires |bp.pieces| == |spawned|
  {
    PasteRecord(LowCorner(opts, diagonal), HighCorner(bp, opts, diagonal),
                bp.classes, ItemsOf(bp, opts, spawned, |spawned|), true)
  }

  lemma {:induction false} ItemsAreSpawnedPieces(bp: Blueprint, opts: PasteOptions, spawned: Answers, k: nat,
                                                 it: UndoItem)
    requires k <= |bp.pieces| == |spawned|
    ensures it in ItemsOf(bp, opts, spawned, k) <==>
            exists i :: 0 <= i < k && spawned[i].Some? && it == ItemOf(opts, bp.pieces[i])
  {
    if k > 0 {
      ItemsAreSpawnedPieces(bp, opts, spawned, k - 1, it);
    }
  }

  // ----- its file -----

  function UndoItemJson(it: UndoItem): Json {
    JObj(map[C := JInt(it.cls), P := Triple(it.x, it.y, it.z)])
  }

  function RecordJson(rec: PasteRecord): Json {
    JObj(map[LO := Triple(rec.lo.x, rec.lo.y, rec.lo.z),
             HI := Triple(rec.hi.x, rec.hi.y, rec.hi.z),
             CLASSES := Strings(rec.classes),
             ITEMS := JArr(seq(|rec.items|, i requires 0 <= i < |rec.items| => UndoItemJson(rec.items[i])))])
  }

  function ReadUndoItem(j: Json): Result<UndoItem, JsonError> {
    var c :- At(j, C);
    var cls :- AsInt(c, INT32);
    var p :- At(j, P);
    var pos :- ReadTriple(p);
    Ok(UndoItem(cls, pos.0, pos.1, pos.2))
  }

  function ReadCorner(j: Json, key: Key): Result<Vec, JsonError> {
    var t :- At(j, key);
    var v :- ReadTriple(t);
    Ok(Vec(v.0, v.1, v.2))
  }

  /** The record is valid when it has at least one item. */
  function ReadRecord(j: Json): Result<PasteRecord, JsonError> {
    var lo :- ReadCorner(j, LO);
    var hi :- ReadCorner(j, HI);
    var cs :- At(j, CLASSES);
    var classes :- ReadStrings(cs);
    var es :- At(j, ITEMS);
    var items :- ReadVector(es, e => ReadUndoItem(e));
    Ok(PasteRecord(lo, hi, classes, items, items != []))
  }

  /** The usable record the file holds, if any. */
  function StoredRecord(files: Files, file: Option<Gzip.Bytes>): Option<PasteRecord> {
    if file.None? then None
    else
      var raw := Gzip.Unpack(files.codec, file.value);
      if raw.None? then None
      else
        var j := files.parse(raw.value);
        if j.None? then None
        else
          match ReadRecord(j.value)
          case Ok(rec) => if rec.valid then Some(rec) else None
          case Err(_) => None
  }

  lemma StoredIsUsable(files: Files, file: Option<Gzip.Bytes>)
    requires StoredRecord(files, file).Some?
    ensures StoredRecord(files, file).value.valid && StoredRecord(files, file).value.items != []
  {
  }

  predicate TypedRecord(rec: PasteRecord) {
    forall i :: 0 <= i < |rec.items| ==> Fits(INT32, rec.items[i].cls)
  }

  /** Reading a written record back: everything is the same, validity is recomputed. */
  lemma RecordRoundTrip(rec: PasteRecord)
    requires TypedRecord(rec)
    ensures ReadRecord(RecordJson(rec)) == Ok(rec.(valid := rec.items != []))
  {
    StringsRoundTrip(rec.classes);
    TripleRoundTrip(rec.lo.x, rec.lo.y, rec.lo.z);
    TripleRoundTrip(rec.hi.x, rec.hi.y, rec.hi.z);
    var es := RecordJson(rec).fields[ITEMS].elems;
    var read := (e: Json) => ReadUndoItem(e);
    forall i | 0 <= i < |es|
      ensures read(es[i]) == Ok(rec.items[i])
    {
      TripleRoundTrip(rec.items[i].x, rec.items[i].y, rec.items[i].z);
    }
    ReadAllInverts(es, read, rec.items);
  }

  /** The bytes `PersistUndo` writes, when compression succeeds. */
  function PackedRecord(files: Files, rec: PasteRecord): Option<Gzip.Bytes> {
    PackedText(files, files.dump(RecordJson(rec)))
  }

  /** The text of this record survives printing, parsing, compressing and inflating. */
  predicate SurvivesText(files: Files, rec: PasteRecord) {
    files.parse(files.dump(RecordJson(rec))) == Some(RecordJson(rec)) &&
    Gzip.Lossless(files.codec, files.dump(RecordJson(rec)))
  }

  /** A stored record comes back as it was written, and is usable exactly when it has an item. */
  lemma StoredRecordComesBack(files: Files, rec: PasteRecord)
    requires TypedRecord(rec) && SurvivesText(files, rec) && PackedRecord(files, rec).Some?
    ensures StoredRecord(files, PackedRecord(files, rec)) ==
            if rec.items != [] then Some(rec.(valid := true)) else None
  {
    Gzip.UnpackUndoesCompress(files.codec, files.dump(RecordJson(rec)));
    RecordRoundTrip(rec);
  }

  // ----- buckets -----

  datatype Bucket = Bucket(x: int, y: int, z: int)

  /** `lround`: to the nearest integer, halves away from zero. */
  function LRound(r: real): int {
    if r >= 0.0 then (r + 0.5).Floor else -((-r + 0.5).Floor)
  }

  function BucketOf(v: Vec): Bucket {
    Bucket(LRound(v.x / 10.0), LRound(v.y / 10.0), LRound(v.z / 10.0))
  }

  function ItemPos(it: UndoItem): Vec {
    Vec(it.x, it.y, it.z)
  }

  predicate KnownClass(rec: PasteRecord, it: UndoItem) {
    0 <= it.cls < |rec.classes|
  }

  /** Position to class path; a later item in the same bucket overwrites an earlier one. */
  function Wanted(rec: PasteRecord, k: nat): map<Bucket, string>
    requires k <= |rec.items|
  {
    if k == 0 then map[]
    else
      var it := rec.items[k - 1];
      if KnownClass(rec, it) then Wanted(rec, k - 1)[BucketOf(ItemPos(it)) := rec.classes[it.cls]]
      else Wanted(rec, k - 1)
  }

  /** Item `i` is the last usable one among the first `k` in bucket `b`. */
  predicate IsLastInBucket(rec: PasteRecord, k: nat, b: Bucket, i: nat)
    requires k <= |rec.items|
  {
    i < k && KnownClass(rec, rec.items[i]) && BucketOf(ItemPos(rec.items[i])) == b &&
    forall j :: i < j < k && KnownClass(rec, rec.items[j]) ==> BucketOf(ItemPos(rec.items[j])) != b
  }

  /** The table holds, for each bucket with a usable item, the class of the last one. */
  lemma {:induction false} WantedIsLast(rec: PasteRecord, k: nat, b: Bucket)
    requires k <= |rec.items|
    ensures b in Wanted(rec, k) <==> exists i: nat :: IsLastInBucket(rec, k, b, i)
    ensures forall i: nat :: IsLastInBucket(rec, k, b, i) ==> Wanted(rec, k)[b] == rec.classes[rec.items[i].cls]
  {
    if k > 0 {
      WantedIsLast(rec, k - 1, b);
      var it := rec.items[k - 1];
      if KnownClass(rec, it) && BucketOf(ItemPos(it)) == b {
        assert IsLastInBucket(rec, k, b, k - 1);
        assert forall i: nat :: IsLastInBucket(rec, k, b, i) ==> i == k - 1 by {
          forall i: nat | IsLastInBucket(rec, k, b, i)
            ensures i == k - 1
          {
          }
        }
      } else {
        assert forall i: nat :: IsLastInBucket(rec, k, b, i) ==> IsLastInBucket(rec, k - 1, b, i);
        if b in Wanted(rec, k - 1) {
          var i: nat :| IsLastInBucket(rec, k - 1, b, i);
          assert IsLastInBucket(rec, k, b, i);
        }
      }
    }
  }

  lemma {:induction false} SomeItemIsLast(rec: PasteRecord, k: nat, b: Bucket, i: nat)
    requires i < k <= |rec.items| && KnownClass(rec, rec.items[i]) && BucketOf(ItemPos(rec.items[i])) == b
    ensures exists l: nat :: IsLastInBucket(rec, k, b, l)
    decreases k
  {
    var it := rec.items[k - 1];
    if KnownClass(rec, it) && BucketOf(ItemPos(it)) == b {
      assert IsLastInBucket(rec, k, b, k - 1);
    } else {
      SomeItemIsLast(rec, k - 1, b, i);
      var l: nat :| IsLastInBucket(rec, k - 1, b, l);
      assert IsLastInBucket(rec, k, b, l);
    }
  }

  // ----- what an undo destroys -----

  function UndoSphere(rec: PasteRecord): Sphere {
    EnclosingSphere(rec.lo, rec.hi)
  }

  /** The actor is readable, stands in a wanted bucket and is of the class wanted there. */
  predicate IsWanted(wanted: map<Bucket, string>, a: Actor) {
    a.transform.Some? && a.path != "" &&
    var b := BucketOf(a.transform.value.loc);
    b in wanted && wanted[b] == a.path
  }

  predicate Matches(rec: PasteRecord, a: Actor) {
    IsWanted(Wanted(rec, |rec.items|), a)
  }

  predicate InReach(rec: PasteRecord, a: Actor) {
    a.groups != {} && a.transform.Some? && InSphere(a.transform.value.loc, UndoSphere(rec))
  }

  function Doomed(rec: PasteRecord, w: Actors): set<ActorId> {
    set id | id in w && InReach(rec, w[id]) && Matches(rec, w[id])
  }

  /** Nothing is destroyed unless its very bucket and class were recorded. */
  lemma DoomedIsRecorded(rec: PasteRecord, w: Actors, id: ActorId)
    requires id in Doomed(rec, w)
    ensures exists i :: 0 <= i < |rec.items| && KnownClass(rec, rec.items[i]) &&
                        BucketOf(ItemPos(rec.items[i])) == BucketOf(w[id].transform.value.loc) &&
                        rec.classes[rec.items[i].cls] == w[id].path
  {
    var b := BucketOf(w[id].transform.value.loc);
    WantedIsLast(rec, |rec.items|, b);
    var i: nat :| IsLastInBucket(rec, |rec.items|, b, i);
  }

  /** Position and class are all an undo looks at: a twin of a doomed actor is doomed as well. */
  lemma TwinIsDoomed(rec: PasteRecord, w: Actors, id: ActorId, twin: ActorId)
    requires id in Doomed(rec, w) && twin in w && w[twin].groups != {}
    requires w[twin].path == w[id].path && w[twin].transform.Some?
    requires w[twin].transform.value.loc == w[id].transform.value.loc
    ensures twin in Doomed(rec, w)
  {
  }

  // ----- buckets of pieces that keep their distance -----

  lemma LRoundNear(r: real)
    ensures -0.5 <= r - LRound(r) as real <= 0.5
  {
  }

  lemma SameRoundIsNear(a: real, b: real)
    requires LRound(a / 10.0) == LRound(b / 10.0)
    ensures -10.0 <= a - b <= 10.0
  {
    LRoundNear(a / 10.0);
    LRoundNear(b / 10.0);
  }

  /** Two positions in one bucket are less than 18 units apart. */
  lemma SameBucketIsNear(a: Vec, b: Vec)
    requires BucketOf(a) == BucketOf(b)
    ensures DistSq(a, b) < 18.0 * 18.0
  {
    SameRoundIsNear(a.x, b.x);
    SameRoundIsNear(a.y, b.y);
    SameRoundIsNear(a.z, b.z);
    SquareMonotone(a.x - b.x, 10.0);
    SquareMonotone(a.y - b.y, 10.0);
    SquareMonotone(a.z - b.z, 10.0);
  }

  // ----- buckets in coordinates -----

  /** From 10k - 5 to 10k + 5; of the two ends the one farther from zero is not in it, and around zero neither. */
  predicate InTens(p: real, k: int) {
    var middle := 10.0 * k as real;
    if k > 0 then middle - 5.0 <= p < middle + 5.0
    else if k < 0 then middle - 5.0 < p <= middle + 5.0
    else -5.0 < p < 5.0
  }

  ghost predicate SharesTens(p: real, q: real) {
    exists k: int :: InTens(p, k) && InTens(q, k)
  }

  /** On every axis both positions lie in one of these intervals: as far as an actor may drift and still be found. */
  ghost predicate IsNear(a: Vec, b: Vec) {
    SharesTens(a.x, b.x) && SharesTens(a.y, b.y) && SharesTens(a.z, b.z)
  }

  lemma RoundsToTens(p: real, k: int)
    ensures LRound(p / 10.0) == k <==> InTens(p, k)
  {
    RoundsWithin(p / 10.0, k);
    assert 10.0 * (p / 10.0) == p;
  }

  /** The integer is the nearest, and of two equally near the one farther from zero. */
  predicate IsNearest(r: real, k: int) {
    if k > 0 then k as real - 0.5 <= r < k as real + 0.5
    else if k < 0 then k as real - 0.5 < r <= k as real + 0.5
    else -0.5 < r < 0.5
  }

  lemma RoundsWithin(r: real, k: int)
    ensures LRound(r) == k <==> IsNearest(r, k)
  {
  }

  lemma RoundAlikeIff(p: real, q: real)
    ensures LRound(p / 10.0) == LRound(q / 10.0) <==> SharesTens(p, q)
  {
    hide LRound, InTens;
    RoundsToTens(p, LRound(p / 10.0));
    RoundsToTens(q, LRound(p / 10.0));
    forall k | InTens(p, k) && InTens(q, k)
      ensures LRound(p / 10.0) == LRound(q / 10.0)
    {
      RoundsToTens(p, k);
      RoundsToTens(q, k);
    }
  }

  /** Two positions share a bucket exactly when they are that near on every axis. */
  lemma SharesBucketIff(a: Vec, b: Vec)
    ensures BucketOf(a) == BucketOf(b) <==> IsNear(a, b)
  {
    hide LRound, SharesTens;
    RoundAlikeIff(a.x, b.x);
    RoundAlikeIff(a.y, b.y);
    RoundAlikeIff(a.z, b.z);
  }

  /** Item `i` is the last usable one whose place is near this one. */
  ghost predicate IsLastItemNear(rec: PasteRecord, at: Vec, i: nat) {
    i < |rec.items| && 0 <= rec.items[i].cls < |rec.classes| &&
    IsNear(Vec(rec.items[i].x, rec.items[i].y, rec.items[i].z), at) &&
    forall j :: i < j < |rec.items| && 0 <= rec.items[j].cls < |rec.classes| ==>
      !IsNear(Vec(rec.items[j].x, rec.items[j].y, rec.items[j].z), at)
  }

  lemma LastItemNearIsLastIn(rec: PasteRecord, at: Vec)
    ensures forall i: nat :: IsLastItemNear(rec, at, i) <==> IsLastInBucket(rec, |rec.items|, BucketOf(at), i)
  {
    hide BucketOf, IsNear;
    forall j | 0 <= j < |rec.items|
      ensures BucketOf(ItemPos(rec.items[j])) == BucketOf(at) <==>
              IsNear(Vec(rec.items[j].x, rec.items[j].y, rec.items[j].z), at)
    {
      SharesBucketIff(ItemPos(rec.items[j]), at);
    }
  }

  /**
   * What an undo destroys, for any record, read back from a file or not: every structure within half
   * of the recorded box's diagonal of its middle, whose class is that of the last item near it.
   */
  lemma DoomedByItem(rec: PasteRecord, w: Actors, id: ActorId)
    ensures id in Doomed(rec, w) <==>
            id in w && w[id].groups != {} && w[id].transform.Some? && w[id].path != "" &&
            var at := w[id].transform.value.loc;
            Square(at.x - (rec.lo.x + rec.hi.x) * 0.5) + Square(at.y - (rec.lo.y + rec.hi.y) * 0.5)
            + Square(at.z - (rec.lo.z + rec.hi.z) * 0.5)
            <= 0.25 * (Square(rec.hi.x - rec.lo.x) + Square(rec.hi.y - rec.lo.y) + Square(rec.hi.z - rec.lo.z)) &&
            exists i: nat :: IsLastItemNear(rec, at, i) && rec.classes[rec.items[i].cls] == w[id].path
  {
    hide IsLastItemNear, IsLastInBucket, Square, BucketOf, Wanted;
    if id in w && w[id].transform.Some? {
      var at := w[id].transform.value.loc;
      LastItemNearIsLastIn(rec, at);
      WantedIsLast(rec, |rec.items|, BucketOf(at));
      forall i: nat | IsLastItemNear(rec, at, i)
        ensures i < |rec.items| && 0 <= rec.items[i].cls < |rec.classes|
      {
        ItemIsUsable(rec, at, i);
      }
    }
  }

  lemma ItemIsUsable(rec: PasteRecord, at: Vec, i: nat)
    requires IsLastItemNear(rec, at, i)
    ensures i < |rec.items| && 0 <= rec.items[i].cls < |rec.classes|
  {
  }

  // ----- the pasted actors and the record of their paste -----

  /** The offsets a capture produces: inside the footprint, and up to its height. */
  predicate InsideExtent(bp: Blueprint, p: Piece) {
    0.0 <= p.x <= bp.sizeX && 0.0 <= p.y <= bp.sizeY && 0.0 <= p.z <= bp.sizeZ
  }

  lemma DiagonalSquare(bp: Blueprint, diagonal: real)
    requires IsDiagonal(bp, diagonal)
    ensures diagonal >= 0.0 && Square(diagonal) == Square(bp.sizeX) + Square(bp.sizeY)
  {
  }

  /** However the build is turned, a piece stays within the diagonal of the footprint. */
  lemma TurnedWithinDiagonal(bp: Blueprint, opts: PasteOptions, p: Piece, diagonal: real)
    requires InsideExtent(bp, p) && IsDiagonal(bp, diagonal)
    ensures var r := RotateAroundZ(Offset(p), opts.turn);
            -diagonal <= r.x <= diagonal && -diagonal <= r.y <= diagonal
  {
    hide RotateAroundZ, Square, IsDiagonal;
    var r := RotateAroundZ(Offset(p), opts.turn);
    DiagonalSquare(bp, diagonal);
    RotationIsIsometry(Offset(p), opts.turn);
    SquareMonotone(p.x, bp.sizeX);
    SquareMonotone(p.y, bp.sizeY);
    SquareIsNotNegative(r.x);
    SquareIsNotNegative(r.y);
    BoundedBySquare(r.x, diagonal);
    BoundedBySquare(r.y, diagonal);
  }

  /** Every piece, sunk by no more than the slack, is inside the recorded box and its sphere. */
  lemma SpawnPointInReach(bp: Blueprint, opts: PasteOptions, spawned: Answers, p: Piece, diagonal: real)
    requires |bp.pieces| == |spawned| && InsideExtent(bp, p) && IsDiagonal(bp, diagonal)
    requires -PAD <= opts.sink <= PAD
    ensures var rec := RecordOf(bp, opts, spawned, diagonal);
            InBox(SpawnPoint(opts, p), rec.lo, rec.hi) && InSphere(SpawnPoint(opts, p), UndoSphere(rec))
  {
    var rec := RecordOf(bp, opts, spawned, diagonal);
    TurnedWithinDiagonal(bp, opts, p, diagonal);
    SphereCoversBox(SpawnPoint(opts, p), rec.lo, rec.hi);
  }

  /** Among the first `k` pieces, spawned piece `j` is the last one recorded in bucket `b`. */
  predicate IsLastSpawnedIn(bp: Blueprint, opts: PasteOptions, spawned: Answers, k: nat, b: Bucket, j: nat)
    requires k <= |bp.pieces| == |spawned|
  {
    j < k && spawned[j].Some? && BucketOf(Destination(opts, bp.pieces[j])) == b &&
    forall l :: j < l < k && spawned[l].Some? ==> BucketOf(Destination(opts, bp.pieces[l])) != b
  }

  lemma {:induction false} WantedPrefix(rec: PasteRecord, more: seq<UndoItem>, k: nat)
    requires k <= |rec.items|
    ensures Wanted(rec.(items := rec.items + more), k) == Wanted(rec, k)
  {
    if k > 0 { WantedPrefix(rec, more, k - 1); }
  }

  /** The table in terms of pieces: each bucket holds the class of the last piece spawned in it. */
  lemma {:induction false} WantedByPiece(bp: Blueprint, opts: PasteOptions, spawned: Answers, rec: PasteRecord, k: nat,
                                         b: Bucket)
    requires k <= |bp.pieces| == |spawned| && ClassesInRange(bp) && rec.classes == bp.classes
    requires rec.items == ItemsOf(bp, opts, spawned, k)
    ensures b in Wanted(rec, |rec.items|) <==> exists j: nat :: IsLastSpawnedIn(bp, opts, spawned, k, b, j)
    ensures forall j: nat :: IsLastSpawnedIn(bp, opts, spawned, k, b, j) ==>
              Wanted(rec, |rec.items|)[b] == bp.classes[bp.pieces[j].classIndex]
    decreases k
  {
    hide LRound, RotateAroundZ;
    if k > 0 {
      var before := rec.(items := ItemsOf(bp, opts, spawned, k - 1));
      WantedByPiece(bp, opts, spawned, before, k - 1, b);
      if spawned[k - 1].Some? {
        WantedOneMore(before, ItemOf(opts, bp.pieces[k - 1]));
      }
      assert rec == if spawned[k - 1].None? then before
                    else before.(items := before.items + [ItemOf(opts, bp.pieces[k - 1])]);
      if spawned[k - 1].Some? && BucketOf(Destination(opts, bp.pieces[k - 1])) == b {
        assert IsLastSpawnedIn(bp, opts, spawned, k, b, k - 1);
      } else {
        LastSpawnedStays(bp, opts, spawned, k, b);
        if b in Wanted(rec, |rec.items|) {
          var j: nat :| IsLastSpawnedIn(bp, opts, spawned, k - 1, b, j);
          assert IsLastSpawnedIn(bp, opts, spawned, k, b, j);
        }
      }
    }
  }

  lemma WantedOneMore(rec: PasteRecord, it: UndoItem)
    requires KnownClass(rec, it)
    ensures Wanted(rec.(items := rec.items + [it]), |rec.items| + 1)
            == Wanted(rec, |rec.items|)[BucketOf(ItemPos(it)) := rec.classes[it.cls]]
  {
    WantedPrefix(rec, [it], |rec.items|);
  }

  lemma LastSpawnedStays(bp: Blueprint, opts: PasteOptions, spawned: Answers, k: nat, b: Bucket)
    requires 0 < k <= |bp.pieces| == |spawned|
    requires !(spawned[k - 1].Some? && BucketOf(Destination(opts, bp.pieces[k - 1])) == b)
    ensures forall j: nat :: IsLastSpawnedIn(bp, opts, spawned, k, b, j) ==>
            IsLastSpawnedIn(bp, opts, spawned, k - 1, b, j)
    ensures forall j: nat :: IsLastSpawnedIn(bp, opts, spawned, k - 1, b, j) ==>
            IsLastSpawnedIn(bp, opts, spawned, k, b, j)
  {
  }

  /** Piece `j` is the last one spawned whose recorded destination is near this place. */
  ghost predicate IsLastSpawnedNear(bp: Blueprint, opts: PasteOptions, spawned: Answers, at: Vec, j: nat)
    requires |bp.pieces| == |spawned|
  {
    j < |bp.pieces| && spawned[j].Some? && IsNear(Destination(opts, bp.pieces[j]), at) &&
    forall l :: j < l < |bp.pieces| && spawned[l].Some? ==> !IsNear(Destination(opts, bp.pieces[l]), at)
  }

  lemma LastNearIsLastIn(bp: Blueprint, opts: PasteOptions, spawned: Answers, at: Vec)
    requires |bp.pieces| == |spawned|
    ensures forall j: nat :: IsLastSpawnedNear(bp, opts, spawned, at, j) <==>
                             IsLastSpawnedIn(bp, opts, spawned, |bp.pieces|, BucketOf(at), j)
  {
    hide Destination, BucketOf, IsNear;
    forall l | 0 <= l < |bp.pieces|
      ensures BucketOf(Destination(opts, bp.pieces[l])) == BucketOf(at) <==> IsNear(Destination(opts, bp.pieces[l]), at)
    {
      SharesBucketIff(Destination(opts, bp.pieces[l]), at);
    }
  }

  /** Pasted piece `i` is still there, where and what it was when it was spawned. */
  predicate StillThere(bp: Blueprint, opts: PasteOptions, spawned: Answers, w: Actors, i: nat)
    requires |bp.pieces| == |spawned| && ClassesInRange(bp)
  {
    i < |bp.pieces| && spawned[i].Some? && spawned[i].value in w &&
    var a := w[spawned[i].value];
    a.groups != {} && a.transform.Some? &&
    a.transform.value.loc == SpawnPoint(opts, bp.pieces[i]) &&
    a.path == bp.classes[bp.pieces[i].classIndex] && a.path != ""
  }

  /**
   * Known before the paste: of the pieces recorded near the place where piece `i` is really spawned,
   * sink included, the last has the class of piece `i`.
   */
  ghost predicate BucketKeepsClass(bp: Blueprint, opts: PasteOptions, spawned: Answers, i: nat)
    requires |bp.pieces| == |spawned| && ClassesInRange(bp) && i < |bp.pieces|
  {
    exists j: nat :: IsLastSpawnedNear(bp, opts, spawned, SpawnPoint(opts, bp.pieces[i]), j) &&
                     bp.classes[bp.pieces[j].classIndex] == bp.classes[bp.pieces[i].classIndex]
  }

  /** Where an undo of this paste will look, known before the paste. */
  function SearchSphere(bp: Blueprint, opts: PasteOptions, diagonal: real): Sphere {
    var half := 0.5 * bp.sizeZ;
    Sphere(Vec(opts.origin.x, opts.origin.y, opts.origin.z + half),
           2.0 * Square(diagonal + 200.0) + Square(half + 200.0))
  }

  lemma SearchSphereEncloses(bp: Blueprint, opts: PasteOptions, diagonal: real)
    ensures SearchSphere(bp, opts, diagonal)
            == EnclosingSphere(LowCorner(opts, diagonal), HighCorner(bp, opts, diagonal))
  {
    hide Square;
    var lo, hi := LowCorner(opts, diagonal), HighCorner(bp, opts, diagonal);
    assert hi.x - lo.x == hi.y - lo.y && (hi.x - lo.x) * 0.5 == diagonal + 200.0;
    assert (hi.z - lo.z) * 0.5 == 0.5 * bp.sizeZ + 200.0;
    SquareHalf(hi.x - lo.x);
    SquareHalf(hi.z - lo.z);
  }

  /**
   * An undo takes this actor: it stands where the undo looks, and the last piece recorded near it
   * has its class.
   */
  ghost predicate IsTaken(bp: Blueprint, opts: PasteOptions, spawned: Answers, diagonal: real, a: Actor)
    requires |bp.pieces| == |spawned| && ClassesInRange(bp)
  {
    a.groups != {} && a.transform.Some? && a.path != "" &&
    InSphere(a.transform.value.loc, SearchSphere(bp, opts, diagonal)) &&
    exists j: nat :: IsLastSpawnedNear(bp, opts, spawned, a.transform.value.loc, j) &&
                     bp.classes[bp.pieces[j].classIndex] == a.path
  }

  /** Any actor at all, the paste's own or a foreign one, is destroyed if and only if it is taken. */
  lemma DoomedByPiece(bp: Blueprint, opts: PasteOptions, spawned: Answers, diagonal: real, w: Actors, id: ActorId)
    requires |bp.pieces| == |spawned| && ClassesInRange(bp) && id in w
    ensures id in Doomed(RecordOf(bp, opts, spawned, diagonal), w) <==> IsTaken(bp, opts, spawned, diagonal, w[id])
  {
    hide IsLastSpawnedIn, IsLastSpawnedNear, SearchSphere, LRound, InSphere, LowCorner, HighCorner, ItemsOf;
    var rec, a := RecordOf(bp, opts, spawned, diagonal), w[id];
    if a.transform.Some? {
      RecordsAll(bp, opts, spawned, diagonal);
      LastNearIsLastIn(bp, opts, spawned, a.transform.value.loc);
      WantedByPiece(bp, opts, spawned, rec, |bp.pieces|, BucketOf(a.transform.value.loc));
    }
  }

  lemma RecordsAll(bp: Blueprint, opts: PasteOptions, spawned: Answers, diagonal: real)
    requires |bp.pieces| == |spawned|
    ensures var rec := RecordOf(bp, opts, spawned, diagonal);
            rec.items == ItemsOf(bp, opts, spawned, |bp.pieces|) && rec.classes == bp.classes &&
            UndoSphere(rec) == SearchSphere(bp, opts, diagonal)
  {
    hide SearchSphere, EnclosingSphere, LowCorner, HighCorner;
    SearchSphereEncloses(bp, opts, diagonal);
  }

  /**
   * A piece that is still there is destroyed if and only if it was spawned where the undo looks
   * and its bucket kept its class, whatever the sink and the offset.
   */
  lemma PieceIsDoomed(bp: Blueprint, opts: PasteOptions, spawned: Answers, diagonal: real, w: Actors, i: nat)
    requires |bp.pieces| == |spawned| && ClassesInRange(bp)
    requires StillThere(bp, opts, spawned, w, i)
    ensures spawned[i].value in Doomed(RecordOf(bp, opts, spawned, diagonal), w) <==>
            IsRecoverable(bp, opts, spawned, diagonal, i)
  {
    hide IsLastSpawnedNear, SearchSphere, SpawnPoint, InSphere, Doomed, RecordOf;
    DoomedByPiece(bp, opts, spawned, diagonal, w, spawned[i].value);
  }

  /** Known before the paste: piece `i` is spawned where the undo looks, in a bucket that keeps its class. */
  ghost predicate IsRecoverable(bp: Blueprint, opts: PasteOptions, spawned: Answers, diagonal: real, i: nat)
    requires |bp.pieces| == |spawned| && ClassesInRange(bp) && i < |bp.pieces|
  {
    InSphere(SpawnPoint(opts, bp.pieces[i]), SearchSphere(bp, opts, diagonal)) && BucketKeepsClass(bp, opts, spawned, i)
  }

  /** Inside the extent, and sunk by no more than the slack, only the bucket counts. */
  lemma BucketDecides(bp: Blueprint, opts: PasteOptions, spawned: Answers, diagonal: real, i: nat)
    requires |bp.pieces| == |spawned| && ClassesInRange(bp) && i < |bp.pieces| && IsDiagonal(bp, diagonal)
    requires InsideExtent(bp, bp.pieces[i]) && -PAD <= opts.sink <= PAD
    ensures IsRecoverable(bp, opts, spawned, diagonal, i) <==> BucketKeepsClass(bp, opts, spawned, i)
  {
    hide BucketKeepsClass, SpawnPoint, InSphere, EnclosingSphere, SearchSphere, InsideExtent, IsDiagonal;
    SearchSphereEncloses(bp, opts, diagonal);
    SpawnPointInReach(bp, opts, spawned, bp.pieces[i], diagonal);
  }

  function LivePasted(spawned: Answers, w: Actors): set<ActorId> {
    set id | id in w && Some(id) in spawned
  }

  /** The surviving actors of the paste are where and what they were. */
  ghost predicate IsUnmoved(bp: Blueprint, opts: PasteOptions, spawned: Answers, w: Actors)
    requires |bp.pieces| == |spawned| && ClassesInRange(bp)
  {
    forall i :: 0 <= i < |bp.pieces| && spawned[i].Some? && spawned[i].value in w ==>
      StillThere(bp, opts, spawned, w, i)
  }

  /** Undo misses no surviving piece if and only if every one of them is recoverable. */
  lemma UndoMissesNothingIff(bp: Blueprint, opts: PasteOptions, spawned: Answers, diagonal: real, w: Actors)
    requires |bp.pieces| == |spawned| && ClassesInRange(bp) && IsUnmoved(bp, opts, spawned, w)
    ensures LivePasted(spawned, w) <= Doomed(RecordOf(bp, opts, spawned, diagonal), w)
            <==> forall i :: 0 <= i < |bp.pieces| && spawned[i].Some? && spawned[i].value in w ==>
                   IsRecoverable(bp, opts, spawned, diagonal, i)
  {
    hide StillThere, IsRecoverable, RecordOf, Doomed;
    var doomed := Doomed(RecordOf(bp, opts, spawned, diagonal), w);
    forall i | 0 <= i < |bp.pieces| && spawned[i].Some? && spawned[i].value in w
      ensures spawned[i].value in doomed <==> IsRecoverable(bp, opts, spawned, diagonal, i)
      ensures spawned[i].value in LivePasted(spawned, w)
    {
      PieceIsDoomed(bp, opts, spawned, diagonal, w, i);
      assert Some(spawned[i].value) == spawned[i];
    }
    forall id | id in LivePasted(spawned, w)
      ensures exists i :: 0 <= i < |bp.pieces| && spawned[i] == Some(id)
    {
    }
  }

  /** All pieces at least 18 units from one another, which the 10-unit buckets need. */
  predicate IsSpaced(bp: Blueprint) {
    forall i, j :: 0 <= i < j < |bp.pieces| ==>
      DistSq(Offset(bp.pieces[i]), Offset(bp.pieces[j])) >= 18.0 * 18.0
  }

  /** A piece of this class belongs near the actor. */
  ghost predicate SharesBucket(bp: Blueprint, opts: PasteOptions, a: Actor, i: nat)
    requires ClassesInRange(bp) && i < |bp.pieces|
  {
    a.transform.Some? && IsNear(Destination(opts, bp.pieces[i]), a.transform.value.loc) &&
    a.path == bp.classes[bp.pieces[i].classIndex]
  }

  lemma TakenSharesBucket(bp: Blueprint, opts: PasteOptions, spawned: Answers, diagonal: real, a: Actor)
    requires |bp.pieces| == |spawned| && ClassesInRange(bp) && IsTaken(bp, opts, spawned, diagonal, a)
    ensures exists i :: 0 <= i < |bp.pieces| && SharesBucket(bp, opts, a, i)
  {
    hide IsNear, Destination, SearchSphere, InSphere;
    var j: nat :| IsLastSpawnedNear(bp, opts, spawned, a.transform.value.loc, j) &&
                  bp.classes[bp.pieces[j].classIndex] == a.path;
    assert SharesBucket(bp, opts, a, j);
  }

  lemma TurnKeepsDistance(opts: PasteOptions, p: Piece, q: Piece)
    ensures DistSq(Destination(opts, p), Destination(opts, q)) == DistSq(Offset(p), Offset(q))
  {
    var v := Sub(Offset(p), Offset(q));
    var r := RotateAroundZ(v, opts.turn);
    RotationIsIsometry(v, opts.turn);
    TurnDifference(Offset(p), Offset(q), opts.turn);
    var d, e := Destination(opts, p), Destination(opts, q);
    assert d.x - e.x == r.x && d.y - e.y == r.y && d.z - e.z == r.z;
  }

  lemma TurnDifference(a: Vec, b: Vec, t: Turn)
    ensures RotateAroundZ(Sub(a, b), t) == Sub(RotateAroundZ(a, t), RotateAroundZ(b, t))
  {
    assert (a.x - b.x) * t.c == a.x * t.c - b.x * t.c;
    assert (a.y - b.y) * t.s == a.y * t.s - b.y * t.s;
    assert (a.x - b.x) * t.s == a.x * t.s - b.x * t.s;
    assert (a.y - b.y) * t.c == a.y * t.c - b.y * t.c;
  }

  lemma SpacedKeepsClass(bp: Blueprint, opts: PasteOptions, spawned: Answers, i: nat)
    requires |bp.pieces| == |spawned| && ClassesInRange(bp) && IsSpaced(bp) && opts.sink == 0.0
    requires i < |bp.pieces| && spawned[i].Some?
    ensures BucketKeepsClass(bp, opts, spawned, i)
  {
    var b := BucketOf(Destination(opts, bp.pieces[i]));
    assert SpawnPoint(opts, bp.pieces[i]) == Destination(opts, bp.pieces[i]);
    forall l | i < l < |bp.pieces|
      ensures BucketOf(Destination(opts, bp.pieces[l])) != b
    {
      TurnKeepsDistance(opts, bp.pieces[i], bp.pieces[l]);
      if BucketOf(Destination(opts, bp.pieces[l])) == b {
        SameBucketIsNear(Destination(opts, bp.pieces[i]), Destination(opts, bp.pieces[l]));
      }
    }
    assert IsLastSpawnedIn(bp, opts, spawned, |bp.pieces|, b, i);
    LastNearIsLastIn(bp, opts, spawned, SpawnPoint(opts, bp.pieces[i]));
  }

  /**
   * Exactly when an undo is right, for every sink and every offset: it destroys the surviving
   * pieces of the paste and nothing else if and only if each of them was spawned where the undo
   * looks, in a bucket that keeps its class, and no foreign actor stands where the undo looks, in
   * a bucket whose last recorded piece has its class.
   */
  lemma UndoIsExactIff(bp: Blueprint, opts: PasteOptions, spawned: Answers, diagonal: real, w: Actors)
    requires |bp.pieces| == |spawned| && ClassesInRange(bp) && IsUnmoved(bp, opts, spawned, w)
    ensures Doomed(RecordOf(bp, opts, spawned, diagonal), w) == LivePasted(spawned, w) <==>
            (forall i :: 0 <= i < |bp.pieces| && spawned[i].Some? && spawned[i].value in w ==>
               IsRecoverable(bp, opts, spawned, diagonal, i)) &&
            (forall id :: id in w && Some(id) !in spawned ==> !IsTaken(bp, opts, spawned, diagonal, w[id]))
  {
    hide Doomed, RecordOf, IsRecoverable, IsTaken, IsUnmoved;
    UndoMissesNothingIff(bp, opts, spawned, diagonal, w);
    var doomed := Doomed(RecordOf(bp, opts, spawned, diagonal), w);
    DoomedExist(RecordOf(bp, opts, spawned, diagonal), w);
    forall id | id in w
      ensures id in doomed <==> IsTaken(bp, opts, spawned, diagonal, w[id])
    {
      DoomedByPiece(bp, opts, spawned, diagonal, w, id);
    }
    assert doomed <= LivePasted(spawned, w) <==>
           forall id :: id in w && Some(id) !in spawned ==> id !in doomed;
  }

  lemma DoomedExist(rec: PasteRecord, w: Actors)
    ensures forall id :: id in Doomed(rec, w) ==> id in w
  {
  }

  /** Sunk by no more than the slack, with every offset inside the extent, the search itself never fails. */
  lemma UndoInReachIff(bp: Blueprint, opts: PasteOptions, spawned: Answers, diagonal: real, w: Actors)
    requires |bp.pieces| == |spawned| && ClassesInRange(bp) && IsUnmoved(bp, opts, spawned, w) &&
             IsDiagonal(bp, diagonal)
    requires -PAD <= opts.sink <= PAD && forall i :: 0 <= i < |bp.pieces| ==> InsideExtent(bp, bp.pieces[i])
    ensures Doomed(RecordOf(bp, opts, spawned, diagonal), w) == LivePasted(spawned, w) <==>
            (forall i :: 0 <= i < |bp.pieces| && spawned[i].Some? && spawned[i].value in w ==>
               BucketKeepsClass(bp, opts, spawned, i)) &&
            (forall id :: id in w && Some(id) !in spawned ==> !IsTaken(bp, opts, spawned, diagonal, w[id]))
  {
    hide Doomed, RecordOf, IsRecoverable, IsTaken, IsUnmoved, BucketKeepsClass, InsideExtent, IsDiagonal;
    UndoIsExactIff(bp, opts, spawned, diagonal, w);
    forall i | 0 <= i < |bp.pieces|
      ensures IsRecoverable(bp, opts, spawned, diagonal, i) <==> BucketKeepsClass(bp, opts, spawned, i)
    {
      BucketDecides(bp, opts, spawned, diagonal, i);
    }
  }

  /**
   * Undo is exact: with no sink, pieces at least 18 units apart and inside the extent, the
   * surviving actors unmoved and no foreign actor taken for a piece, it destroys the surviving
   * pieces of the paste and nothing else.
   */
  lemma UndoIsExact(bp: Blueprint, opts: PasteOptions, spawned: Answers, diagonal: real, w: Actors)
    requires |bp.pieces| == |spawned| && ClassesInRange(bp) && IsDiagonal(bp, diagonal)
    requires IsUnmoved(bp, opts, spawned, w) && IsSpaced(bp) && opts.sink == 0.0
    requires forall i :: 0 <= i < |bp.pieces| ==> InsideExtent(bp, bp.pieces[i])
    requires forall id :: id in w && Some(id) !in spawned ==> !IsTaken(bp, opts, spawned, diagonal, w[id])
    ensures Doomed(RecordOf(bp, opts, spawned, diagonal), w) == LivePasted(spawned, w)
  {
    hide Doomed, RecordOf, IsTaken, IsUnmoved, BucketKeepsClass, InsideExtent, IsDiagonal, IsSpaced;
    forall i | 0 <= i < |bp.pieces| && spawned[i].Some?
      ensures BucketKeepsClass(bp, opts, spawned, i)
    {
      SpacedKeepsClass(bp, opts, spawned, i);
    }
    UndoInReachIff(bp, opts, spawned, diagonal, w);
  }

  /** A one-piece build at the origin, sunk by 10 units. */
  function SunkBuild(path: string): Blueprint {
    DEFAULT_BLUEPRINT.(classes := [path], pieces := [DEFAULT_PIECE])
  }

  const SINK_OPTIONS := PasteOptions(ORIGIN, 0.0, NO_TURN, 0, 0, false, 10.0, 25)

  const SUNK_SPOT: Vec := Vec(0.0, 0.0, -10.0)

  lemma RoundDown()
    ensures LRound(0.0) == 0 && LRound(-1.0) == -1
  {
  }

  lemma SunkDestination()
    ensures Destination(SINK_OPTIONS, DEFAULT_PIECE) == ORIGIN
    ensures SpawnPoint(SINK_OPTIONS, DEFAULT_PIECE) == SUNK_SPOT
  {
    hide RotateAroundZ;
    NoTurnKeeps(ORIGIN);
  }

  lemma SunkBuckets()
    ensures BucketOf(SUNK_SPOT) != BucketOf(ORIGIN)
  {
    hide LRound;
    RoundDown();
    assert -10.0 / 10.0 == -1.0 && 0.0 / 10.0 == 0.0;
    assert BucketOf(SUNK_SPOT).z == LRound(-1.0) && BucketOf(ORIGIN).z == LRound(0.0);
  }

  /**
   * With a sink the record names buckets the actors are not in: a single piece sunk by 10 units
   * survives the undo of its own paste, untouched in the world it was pasted into.
   */
  lemma SunkPieceIsMissed(path: string, w: Actors)
    requires path != "" && w.Keys == {0}
    requires w[0] == Actor(path, Some(Transform(SUNK_SPOT, Rot(0.0, 0.0, 0.0))), [], None, {STRUCTURES})
    ensures IsUnmoved(SunkBuild(path), SINK_OPTIONS, [Some(0)], w) && IsSpaced(SunkBuild(path))
    ensures LivePasted([Some(0)], w) == {0}
    ensures Doomed(RecordOf(SunkBuild(path), SINK_OPTIONS, [Some(0)], 0.0), w) == {}
  {
    hide LRound, RecordOf, Destination, SpawnPoint, BucketOf, Matches, InReach;
    var bp := SunkBuild(path);
    SunkDestination();
    SunkBuckets();
    assert [Some(0)][0] == Some(0);
    assert StillThere(bp, SINK_OPTIONS, [Some(0)], w, 0);
    PieceIsDoomed(bp, SINK_OPTIONS, [Some(0)], 0.0, w, 0);
    LastNearIsLastIn(bp, SINK_OPTIONS, [Some(0)], SUNK_SPOT);
    assert !BucketKeepsClass(bp, SINK_OPTIONS, [Some(0)], 0);
  }

  /** Two pieces of one class, 300 units apart in height, sunk by as much. */
  function StackedBuild(path: string): Blueprint {
    DEFAULT_BLUEPRINT.(sizeZ := 300.0, classes := [path], pieces := [DEFAULT_PIECE, DEFAULT_PIECE.(z := 300.0)])
  }

  const DEEP_OPTIONS := SINK_OPTIONS.(sink := 300.0)

  lemma StackedPlaces()
    ensures Destination(DEEP_OPTIONS, DEFAULT_PIECE) == ORIGIN
    ensures SpawnPoint(DEEP_OPTIONS, DEFAULT_PIECE) == Vec(0.0, 0.0, -300.0)
    ensures Destination(DEEP_OPTIONS, DEFAULT_PIECE.(z := 300.0)) == Vec(0.0, 0.0, 300.0)
    ensures SpawnPoint(DEEP_OPTIONS, DEFAULT_PIECE.(z := 300.0)) == ORIGIN
  {
    hide RotateAroundZ;
    NoTurnKeeps(ORIGIN);
    NoTurnKeeps(Vec(0.0, 0.0, 300.0));
  }

  lemma StackedBuckets()
    ensures BucketOf(Vec(0.0, 0.0, -300.0)) == Bucket(0, 0, -30)
    ensures BucketOf(ORIGIN) == Bucket(0, 0, 0) && BucketOf(Vec(0.0, 0.0, 300.0)) == Bucket(0, 0, 30)
  {
    assert 0.0 / 10.0 == 0.0 && -300.0 / 10.0 == -30.0 && 300.0 / 10.0 == 30.0;
    assert LRound(0.0) == 0 && LRound(-30.0) == -30 && LRound(30.0) == 30;
  }

  lemma OriginIsSearched(path: string)
    ensures InSphere(ORIGIN, SearchSphere(StackedBuild(path), DEEP_OPTIONS, 0.0))
  {
    SearchSphereEncloses(StackedBuild(path), DEEP_OPTIONS, 0.0);
    SphereCoversBox(ORIGIN, LowCorner(DEEP_OPTIONS, 0.0), HighCorner(StackedBuild(path), DEEP_OPTIONS, 0.0));
  }

  /** The lower piece is missed; the upper one is taken, through the bucket of the lower one. */
  lemma StackedPieceIsMissed(path: string, w: Actors)
    requires IsUnmoved(StackedBuild(path), DEEP_OPTIONS, [Some(0), Some(1)], w) && {0, 1} <= w.Keys
    ensures Doomed(RecordOf(StackedBuild(path), DEEP_OPTIONS, [Some(0), Some(1)], 0.0), w) * {0, 1} == {1}
  {
    hide LRound, RecordOf, Destination, SpawnPoint, BucketOf, Doomed, SearchSphere, InSphere;
    var bp, spawned: Answers := StackedBuild(path), [Some(0), Some(1)];
    StackedPlaces();
    StackedBuckets();
    OriginIsSearched(path);
    assert spawned[0] == Some(0) && spawned[1] == Some(1);
    PieceIsDoomed(bp, DEEP_OPTIONS, spawned, 0.0, w, 0);
    PieceIsDoomed(bp, DEEP_OPTIONS, spawned, 0.0, w, 1);
    LastNearIsLastIn(bp, DEEP_OPTIONS, spawned, SpawnPoint(DEEP_OPTIONS, bp.pieces[0]));
    LastNearIsLastIn(bp, DEEP_OPTIONS, spawned, ORIGIN);
    assert IsLastSpawnedIn(bp, DEEP_OPTIONS, spawned, 2, Bucket(0, 0, 0), 0);
    assert !BucketKeepsClass(bp, DEEP_OPTIONS, spawned, 0);
  }

  /** Two pieces of different classes in one place: the undo leaves the earlier of them standing. */
  lemma SharedBucketIsMissed(bp: Blueprint, opts: PasteOptions, spawned: Answers, diagonal: real, w: Actors, i: nat,
                             j: nat)
    requires |bp.pieces| == |spawned| && ClassesInRange(bp) && opts.sink == 0.0
    requires i < j < |bp.pieces| && spawned[j].Some? && StillThere(bp, opts, spawned, w, i)
    requires Offset(bp.pieces[i]) == Offset(bp.pieces[j])
    requires bp.classes[bp.pieces[i].classIndex] != bp.classes[bp.pieces[j].classIndex]
    requires forall l :: j < l < |bp.pieces| && spawned[l].Some? ==>
               !IsNear(Destination(opts, bp.pieces[l]), Destination(opts, bp.pieces[j]))
    ensures spawned[i].value in w && spawned[i].value !in Doomed(RecordOf(bp, opts, spawned, diagonal), w)
  {
    hide Doomed, RecordOf, SearchSphere, InSphere, IsNear;
    var at := SpawnPoint(opts, bp.pieces[i]);
    assert at == Destination(opts, bp.pieces[j]);
    PieceIsDoomed(bp, opts, spawned, diagonal, w, i);
    SharesBucketIff(at, at);
    assert IsLastSpawnedNear(bp, opts, spawned, at, j);
    assert forall l: nat :: IsLastSpawnedNear(bp, opts, spawned, at, l) ==> l == j;
  }
}
