/**
 * The paste subsystem as a whole (src/Paste.cpp): at most one running job, the record of the last
 * paste in memory and on disk, and the five entry points begin, tick, cancel, finish and undo.
 */
module PastePlugin {
  import opened Wrappers
  import opened Geometry
  import opened Json
  import opened Model
  import opened World
  import opened PasteSpec
  import opened Paste
  import opened Undo
  import Gzip

  datatype BeginError = AlreadyRunning | EmptyBlueprint | NoKnownClass

  datatype UndoError = StillRunning | NothingToUndo

  /** A paste that ran to its end. */
  datatype Finished = Finished(bp: Blueprint, opts: PasteOptions, spawned: Answers, diagonal: real)

  predicate IsFinished(f: Finished) {
    ClassesInRange(f.bp) && |f.bp.pieces| == |f.spawned| && IsDiagonal(f.bp, f.diagonal)
  }

  function FinishedRecord(f: Finished): PasteRecord
    requires IsFinished(f)
  {
    RecordOf(f.bp, f.opts, f.spawned, f.diagonal)
  }

  /** The record as far as an undo can use it: only with at least one item. */
  function Usable(rec: PasteRecord): Option<PasteRecord> {
    if rec.valid && rec.items != [] then Some(rec) else None
  }

  /** Compression succeeded and every byte of the record reached the disk. */
  predicate IsWhole(files: Files, rec: PasteRecord, written: Option<nat>) {
    PackedRecord(files, rec).Some? && written.Some? && written.value >= |PackedRecord(files, rec).value|
  }

  /** The undo file after an attempt to store `rec` that gets `written` bytes to the disk. */
  function Persisted(files: Files, file: Option<Gzip.Bytes>, rec: PasteRecord, written: Option<nat>)
    : Option<Gzip.Bytes>
  {
    if PackedRecord(files, rec).None? || written.None? then file
    else Some(FirstBytes(PackedRecord(files, rec).value, written.value))
  }

  /**
   * After a reload the file is all there is.  It gives back the record of the finished paste exactly
   * when all of it was written, or when the file was left alone and held the same record before;
   * assuming that a part of a compressed record does not unpack.
   */
  lemma RecordSurvivesIff(files: Files, file: Option<Gzip.Bytes>, rec: PasteRecord, written: Option<nat>)
    requires TypedRecord(rec) && SurvivesText(files, rec) && rec.valid && rec.items != []
    requires written.Some? && PackedRecord(files, rec).Some? && written.value < |PackedRecord(files, rec).value| ==>
               Gzip.Unpack(files.codec, FirstBytes(PackedRecord(files, rec).value, written.value)).None?
    ensures StoredRecord(files, Persisted(files, file, rec, written)) == Some(rec) <==>
            IsWhole(files, rec, written) ||
            ((PackedRecord(files, rec).None? || written.None?) && StoredRecord(files, file) == Some(rec))
  {
    hide TypedRecord, SurvivesText, PackedRecord, ReadRecord;
    if PackedRecord(files, rec).Some? { StoredRecordComesBack(files, rec); }
  }

  // ----- BeginPaste's own loops -----

  /** `std::sort` by height: some bottom-up order; ties fall in any order. */
  method SortByHeight(pieces: seq<Piece>) returns (order: seq<nat>)
    ensures |order| == |pieces| && IsPermutation(order) && IsBottomUp(pieces, order)
  {
    order := [];
    for i := 0 to |pieces|
      invariant |order| == i && IsPermutation(order) && IsBottomUp(pieces, order)
    {
      var at := i;
      while at > 0 && pieces[order[at - 1]].z > pieces[i].z
        invariant 0 <= at <= i
        invariant forall k :: at <= k < i ==> pieces[order[k]].z > pieces[i].z
      {
        at := at - 1;
      }
      InsertedIsPermutation(order, at);
      InsertedIsSorted(pieces, order, at);
      order := order[..at] + [i] + order[at..];
    }
  }

  lemma InsertedAt(order: seq<nat>, at: nat, x: nat, k: nat)
    requires at <= |order| && k <= |order|
    ensures (order[..at] + [x] + order[at..])[k] == if k < at then order[k] else if k == at then x else order[k - 1]
  {
  }

  lemma InsertedIsSorted(pieces: seq<Piece>, order: seq<nat>, at: nat)
    requires IsPermutation(order) && at <= |order| < |pieces| && IsBottomUp(pieces, order)
    requires at > 0 ==> pieces[order[at - 1]].z <= pieces[|order|].z
    requires forall k :: at <= k < |order| ==> pieces[order[k]].z > pieces[|order|].z
    ensures var more := order[..at] + [|order|] + order[at..];
            (forall k :: 0 <= k < |more| ==> more[k] < |pieces|) && IsBottomUp(pieces, more)
  {
    var more := order[..at] + [|order|] + order[at..];
    forall k | 0 <= k < |more|
      ensures more[k] == if k < at then order[k] else if k == at then |order| else order[k - 1]
      ensures more[k] < |pieces|
    {
      InsertedAt(order, at, |order|, k);
    }
    forall j, k | 0 <= j < k < |more|
      ensures pieces[more[j]].z <= pieces[more[k]].z
    {
      if k == at && j < at - 1 {
        assert pieces[order[j]].z <= pieces[order[at - 1]].z;
      }
    }
  }

  lemma InsertedIsPermutation(before: seq<nat>, at: nat)
    requires IsPermutation(before) && at <= |before|
    ensures IsPermutation(before[..at] + [|before|] + before[at..])
  {
    var order := before[..at] + [|before|] + before[at..];
    forall i | 0 <= i < |order|
      ensures i in order
    {
      if i < |before| {
        assert i in before;
        var k :| 0 <= k < |before| && before[k] == i;
        assert order[if k < at then k else k + 1] == i;
      } else {
        assert order[at] == i;
      }
    }
  }

  method ResolveClasses(classes: seq<string>, loads: string -> bool) returns (resolved: seq<bool>, missing: nat)
    ensures resolved == seq(|classes|, i requires 0 <= i < |classes| => loads(classes[i]))
    ensures missing == |classes| <==> forall i :: 0 <= i < |classes| ==> !loads(classes[i])
  {
    resolved, missing := [], 0;
    for i := 0 to |classes|
      invariant |resolved| == i && forall k :: 0 <= k < i ==> resolved[k] == loads(classes[k])
      invariant missing <= i
      invariant missing == i <==> forall k :: 0 <= k < i ==> !loads(classes[k])
    {
      if !loads(classes[i]) { missing := missing + 1; }
      resolved := resolved + [loads(classes[i])];
    }
  }

  class Plugin {
    const engine: Engine
    const files: Files
    var job: PasteJob?
    var last: PasteRecord
    var undoFile: Option<Gzip.Bytes>
    ghost var finished: Option<Finished>   // the last paste that ran to its end and was not undone
    ghost var stored: bool                 // the file holds the record of `finished`

    ghost predicate Valid()
      reads this, engine, job
    {
      engine.Valid() &&
      (job != null ==> job.Valid() && !last.valid) &&
      (finished.Some? ==> IsFinished(finished.value)) &&
      (last.valid ==> IsRecordOfFinished(last) || StoredRecord(files, undoFile) == Some(last)) &&
      (stored ==> StoredRecord(files, undoFile) ==
                  if finished.Some? then Usable(FinishedRecord(finished.value)) else None)
    }

    ghost predicate IsRecordOfFinished(rec: PasteRecord)
      reads this
    {
      finished.Some? && IsFinished(finished.value) && rec == FinishedRecord(finished.value)
    }

    /** The record an undo would work from: the one in memory, else the one on disk. */
    ghost function UndoTarget(): Option<PasteRecord>
      reads this
    {
      if Usable(last).Some? then Usable(last) else StoredRecord(files, undoFile)
    }

    /** After a reload: nothing in memory, whatever the file holds on disk. */
    constructor (engine: Engine, files: Files, undoFile: Option<Gzip.Bytes>)
      requires engine.Valid()
      ensures Valid() && job == null && last == EMPTY_RECORD
      ensures this.engine == engine && this.files == files && this.undoFile == undoFile
    {
      this.engine, this.files, this.undoFile := engine, files, undoFile;
      job, last := null, EMPTY_RECORD;
      finished, stored := None, false;
    }

    method BeginPaste(bp: Blueprint, opts: PasteOptions, loads: string -> bool) returns (error: Option<BeginError>)
      requires Valid()
      modifies `job, `last
      ensures Valid()
      ensures error == if old(job) != null then Some(AlreadyRunning)
                       else if bp.pieces == [] then Some(EmptyBlueprint)
                       else if forall i :: 0 <= i < |bp.classes| ==> !loads(bp.classes[i]) then Some(NoKnownClass)
                       else None
      ensures error.Some? ==> job == old(job) && last == old(last)
      ensures error.None? ==>
                job != null && fresh(job) && job.bp == bp && job.opts == opts && job.phase == Placing &&
                job.resolved == seq(|bp.classes|, i requires 0 <= i < |bp.classes| => loads(bp.classes[i])) &&
                job.cursor == 0 && job.log == [] && last == EMPTY_RECORD && job.Alive(engine)
    {
      if job != null { return Some(AlreadyRunning); }
      if bp.pieces == [] { return Some(EmptyBlueprint); }
      var resolved, missing := ResolveClasses(bp.classes, loads);
      if missing == |bp.classes| { return Some(NoKnownClass); }
      var order := SortByHeight(bp.pieces);
      job := new PasteJob(bp, opts, resolved, order);
      last := EMPTY_RECORD;
      error := None;
    }

    method CancelPaste()
      requires Valid()
      modifies `job
      ensures Valid() && job == null
    {
      job := null;
    }

    /**
     * `written` is the number of bytes that reach the disk, None when the file cannot be opened.
     * Opening truncates, so a short write leaves a part of the record in place of the old one.
     */
    method PersistUndo(rec: PasteRecord, written: Option<nat>)
      modifies `undoFile
      ensures undoFile == Persisted(files, old(undoFile), rec, written)
    {
      var ok, packed := Gzip.Compress(files.codec, files.dump(RecordJson(rec)), []);
      if !ok { return; }
      if written.Some? { undoFile := Some(FirstBytes(packed, written.value)); }
    }

    /** Where each spawned piece belongs, recomputed from the plan rather than read back. */
    method DescribePaste(done: PasteJob, diagonal: real) returns (rec: PasteRecord)
      requires |done.spawned| == |done.bp.pieces|
      ensures rec == RecordOf(done.bp, done.opts, done.spawned, diagonal)
    {
      var reach := diagonal + PAD;
      var o := done.opts.origin;
      var lo := Vec(o.x - reach, o.y - reach, o.z - PAD);
      var hi := Vec(o.x + reach, o.y + reach, o.z + done.bp.sizeZ + PAD);
      var items := [];
      for i := 0 to |done.spawned|
        invariant items == ItemsOf(done.bp, done.opts, done.spawned, i)
      {
        if done.spawned[i].Some? {
          items := items + [ItemOf(done.opts, done.bp.pieces[i])];
        }
      }
      rec := PasteRecord(lo, hi, done.bp.classes, items, true);
    }

    /** `diagonal` is the square root the source computes for the recorded box. */
    method FinishJob(done: PasteJob, diagonal: real, written: Option<nat>)
      requires job == done && engine.Valid() && |done.spawned| == |done.bp.pieces|
      requires ClassesInRange(done.bp) && IsDiagonal(done.bp, diagonal)
      modifies this
      ensures Valid() && job == null && last.valid
      ensures finished == Some(Finished(done.bp, done.opts, done.spawned, diagonal))
      ensures IsRecordOfFinished(last) && undoFile == Persisted(files, old(undoFile), last, written)
      ensures IsWhole(files, last, written) && SurvivesText(files, last) && TypedRecord(last) ==> stored
    {
      hide StoredRecord, PackedRecord, SurvivesText, TypedRecord, RecordOf, ClassesInRange, IsDiagonal;
      last := DescribePaste(done, diagonal);
      RecordIsValid(done.bp, done.opts, done.spawned, diagonal);
      PersistUndo(last, written);
      finished := Some(Finished(done.bp, done.opts, done.spawned, diagonal));
      stored := IsWhole(files, last, written) && SurvivesText(files, last) && TypedRecord(last);
      if stored { StoredRecordComesBack(files, last); }
      job := null;
    }

    ghost predicate Unchanged(before: (PasteRecord, Option<Gzip.Bytes>, Option<Finished>, bool))
      reads this
    {
      before == (last, undoFile, finished, stored)
    }

    /** One server tick.  `worldPresent` is false while the engine has no world. */
    method TickPaste(worldPresent: bool, diagonal: real, written: Option<nat>)
      requires Valid()
      requires job != null ==> job.Alive(engine) && ClassesInRange(job.bp) && IsDiagonal(job.bp, diagonal)
      modifies this, engine, job
      ensures Valid()
      ensures old(job) == null || !worldPresent ==>
                job == null && Unchanged(old((last, undoFile, finished, stored))) &&
                engine.actors == old(engine.actors) && engine.trace == old(engine.trace)
      ensures old(job) != null && !worldPresent ==> unchanged(old(job))
      ensures old(job) != null && worldPresent ==>
                var j := old(job);
                var rate := if j.opts.perTick >= 1 then j.opts.perTick else 25;
                j.PlacedRight() && old(job.answers) <= j.answers &&
                AreNewSince(j.answers, old(job.cursor), old(engine.actors)) &&
                old(engine.actors).Keys <= engine.actors.Keys &&
                j.Since(engine, old(job.log), old(engine.trace), old(engine.actors)) &&
                (old(job.phase) == Placing ==>
                   j.cursor == Smaller(old(job.cursor) + rate, |j.order|) &&
                   (j.phase == Linking <==> j.cursor == |j.order| && !j.opts.invulnerable) &&
                   (j.phase == Linking ==> j.IsLinking() && j.Done() == 0)) &&
                (old(job.phase) == Linking ==>
                   j.IsLinking() && j.spawned == old(job.spawned) && j.answers == old(job.answers) &&
                   j.Done() == Smaller(old(job.Done()) + rate, Work(j.bp.pieces, j.spawned, |j.bp.pieces|)))
      ensures old(job) != null && worldPresent && !old(job).AtEnd() ==>
                job == old(job) && job.Alive(engine) && Unchanged(old((last, undoFile, finished, stored)))
      ensures old(job) != null && worldPresent && old(job).AtEnd() ==>
                var j := old(job);
                job == null && finished == Some(Finished(j.bp, j.opts, j.spawned, diagonal)) &&
                IsRecordOfFinished(last) && undoFile == Persisted(files, old(undoFile), last, written) &&
                (IsWhole(files, last, written) && SurvivesText(files, last) && TypedRecord(last) ==> stored)
    {
      hide IsPlacement, PlaceTrace, StoredRecord, PackedRecord, SurvivesText, TypedRecord, RecordOf,
        LinksSoFar, Work, WorkDone;
      if job == null { return; }
      if !worldPresent { job := null; return; }
      var j := job;
      if j.phase == Placing {
        j.TickPlacing(engine);
        if j.cursor >= |j.order| && j.opts.invulnerable {
          PlacementShape(j.Plan(), j.Placement());
          PlanShape(j.Plan());
          FinishJob(j, diagonal, written);
        }
        return;
      }
      j.TickLinking(engine);
      if j.linkCursor >= |j.bp.pieces| {
        PlacementShape(j.Plan(), j.Placement());
        PlanShape(j.Plan());
        FinishJob(j, diagonal, written);
      }
    }

    /** Ticks from the start of the job to its present state, and from there to its end. */
    ghost predicate OnSchedule(j: PasteJob, ticks: nat)
      reads this, j
    {
      var n, b := |j.bp.pieces|, Budget(j.opts);
      if job == null then
        ticks == TicksFor(n, b) + if j.opts.invulnerable || |j.spawned| != n then 0
                                  else TicksFor(Work(j.bp.pieces, j.spawned, n), b)
      else if j.phase == Placing then
        j.cursor <= n && TicksFor(n, b) == ticks + TicksFor(n - j.cursor, b)
      else
        j.IsLinking() && j.Done() <= Work(j.bp.pieces, j.spawned, n) &&
        TicksFor(n, b) + TicksFor(Work(j.bp.pieces, j.spawned, n), b)
        == ticks + TicksFor(Work(j.bp.pieces, j.spawned, n) - j.Done(), b)
    }

    /** What holds between two ticks of a run that began when the world was `actors0`. */
    ghost predicate IsUnderWay(j: PasteJob, ticks: nat, trace0: seq<Event>, actors0: Actors, diagonal: real)
      reads this, engine, job, j
    {
      Valid() && (job != null ==> job == j && j.Alive(engine)) && j.Since(engine, [], trace0, actors0) &&
      OnSchedule(j, ticks) && AreNewSince(j.answers, 0, actors0) && actors0.Keys <= engine.actors.Keys &&
      (job == null ==> j.AtEnd() && IsRecordOfFinished(last) &&
                       finished == Some(Finished(j.bp, j.opts, j.spawned, diagonal)))
    }

    /** One placing tick of such a run: it ends, or linking begins, or the cursor has moved on. */
    method TickWhilePlacing(ghost ticks: nat, ghost trace0: seq<Event>, ghost actors0: Actors, diagonal: real,
                            written: Option<nat>)
      requires job != null && job.phase == Placing && IsUnderWay(job, ticks, trace0, actors0, diagonal)
      requires ClassesInRange(job.bp) && IsDiagonal(job.bp, diagonal)
      modifies this, engine, job
      ensures IsUnderWay(old(job), ticks + 1, trace0, actors0, diagonal)
      ensures job == null || job.phase == Linking || job.cursor > old(job.cursor)
    {
      hide IsPlacement, PlaceTrace, StoredRecord, PackedRecord, SurvivesText, TypedRecord, RecordOf, Replay, LinksSoFar,
        Work, WorkDone, TicksFor, Budget, IsDiagonal, Usable, FinishedRecord, Persisted, IsWhole, IsFinished,
        PasteJob.Alive, Plugin.IsRecordOfFinished, AreNewSince, AreAnswers, IsPlan;
      var j := job;
      ghost var before, n, b := j.log, |j.bp.pieces|, Budget(j.opts);
      BudgetIsRate(j.opts);
      NoTicksForNothing(b);
      PlacementShape(j.Plan(), j.Placement());
      TicksStep(j.cursor, n, b);
      ghost var answers0, w := j.answers, engine.actors;
      TickPaste(true, diagonal, written);
      NewSinceMore(answers0, j.answers, actors0, w);
      if j.phase == Linking { WorkLeft(j.bp.pieces, j.spawned, j.linkCursor, j.linkSub); }
      ExtendReplay(engine.groupsOf, actors0, [], before, j.log);
    }

    /** One linking tick: it ends, or more of the work is done. */
    method TickWhileLinking(ghost ticks: nat, ghost trace0: seq<Event>, ghost actors0: Actors, diagonal: real,
                            written: Option<nat>)
      requires job != null && job.phase == Linking && IsUnderWay(job, ticks, trace0, actors0, diagonal)
      requires ClassesInRange(job.bp) && IsDiagonal(job.bp, diagonal)
      modifies this, engine, job
      ensures IsUnderWay(old(job), ticks + 1, trace0, actors0, diagonal)
      ensures job == null ||
              (job.phase == Linking && job.spawned == old(job.spawned) && job.IsLinking() &&
               job.Done() > old(job.Done()))
    {
      hide IsPlacement, PlaceTrace, StoredRecord, PackedRecord, SurvivesText, TypedRecord, RecordOf, Replay, LinksSoFar,
        Work, WorkDone, TicksFor, Budget, IsDiagonal, Usable, FinishedRecord, Persisted, IsWhole, IsFinished,
        PasteJob.Alive, Plugin.IsRecordOfFinished;
      var j := job;
      ghost var before, n, b := j.log, |j.bp.pieces|, Budget(j.opts);
      BudgetIsRate(j.opts);
      NoTicksForNothing(b);
      WorkLeft(j.bp.pieces, j.spawned, j.linkCursor, j.linkSub);
      TicksStep(j.Done(), Work(j.bp.pieces, j.spawned, n), b);
      TickPaste(true, diagonal, written);
      WorkLeft(j.bp.pieces, j.spawned, j.linkCursor, j.linkSub);
      ExtendReplay(engine.groupsOf, actors0, [], before, j.log);
    }

    /** Ticks the new job until it is finished, without cancelling it. */
    method RunToCompletion(diagonal: real, written: Option<nat>) returns (ticks: nat)
      requires Valid() && job != null && job.phase == Placing && job.cursor == 0 && job.log == []
      requires job.Alive(engine) && ClassesInRange(job.bp) && IsDiagonal(job.bp, diagonal)
      modifies this, engine, job
      ensures Valid() && job == null && IsRecordOfFinished(last)
      ensures var j := old(job);
              AreAnswers(j.Plan(), j.answers) && |j.answers| == |j.order| &&
              j.spawned == Spawned(j.Plan(), j.answers) && AreNewSince(j.answers, 0, old(engine.actors)) &&
              engine.trace == old(engine.trace) + OneShot(j.Plan(), j.answers) &&
              engine.actors == Replay(engine.groupsOf, old(engine.actors), OneShot(j.Plan(), j.answers)) &&
              finished == Some(Finished(j.bp, j.opts, j.spawned, diagonal))
      ensures var j := old(job);
              var rate := if j.opts.perTick >= 1 then j.opts.perTick else 25;
              |j.spawned| == |j.bp.pieces| &&
              ticks == CeilDiv(|j.bp.pieces|, rate) +
                       if j.opts.invulnerable then 0
                       else CeilDiv(Work(j.bp.pieces, j.spawned, |j.bp.pieces|), rate)
    {
      hide IsPlacement, PlaceTrace, StoredRecord, PackedRecord, SurvivesText, TypedRecord, RecordOf, Replay,
        LinksSoFar, Work, WorkDone, OneShot, TicksFor, CeilDiv, Budget, IsDiagonal, Usable, AreAnswers, FinishedRecord,
        Persisted, IsWhole, IsFinished, PasteJob.Alive, Plugin.IsRecordOfFinished;
      var j := job;
      ghost var trace0, actors0 := engine.trace, engine.actors;
      PlacementShape(j.Plan(), j.Placement());
      ReplayNone(engine.groupsOf, actors0);
      NoTicksForNothing(Budget(j.opts));
      BudgetIsRate(j.opts);
      ticks := 0;
      while job != null
        invariant IsUnderWay(j, ticks, trace0, actors0, diagonal)
        decreases if job == null then 0 else 1,
                  if j.phase == Placing then 1 else 0,
                  if j.phase == Placing then |j.order| - j.cursor
                  else Work(j.bp.pieces, j.spawned, |j.bp.pieces|) - (if j.IsLinking() then j.Done() else 0)
      {
        if job.phase == Placing {
          TickWhilePlacing(ticks, trace0, actors0, diagonal, written);
        } else {
          TickWhileLinking(ticks, trace0, actors0, diagonal, written);
        }
        ticks := ticks + 1;
      }
      j.EndIsOneShot();
      TicksForIsCeilDiv(|j.bp.pieces|, Budget(j.opts));
      TicksForIsCeilDiv(Work(j.bp.pieces, j.spawned, |j.bp.pieces|), Budget(j.opts));
    }

    /** While its record is in memory or was stored, the last finished paste is what an undo targets. */
    lemma UndoTargetsFinished()
      requires Valid() && finished.Some? && FinishedRecord(finished.value).items != []
      requires stored || IsRecordOfFinished(last)
      ensures UndoTarget() == Some(FinishedRecord(finished.value))
    {
      var f := finished.value;
      RecordIsValid(f.bp, f.opts, f.spawned, f.diagonal);
    }

    /**
     * After any run of begin, tick, cancel and undo, and as long as the finished paste's record is
     * in memory or was stored: an undo would destroy its surviving pieces and nothing else if and
     * only if each of them is recoverable and no foreign actor is taken for one.
     */
    lemma UndoIsExactHere()
      requires Valid() && finished.Some? && FinishedRecord(finished.value).items != []
      requires stored || IsRecordOfFinished(last)
      requires var f := finished.value; IsUnmoved(f.bp, f.opts, f.spawned, engine.actors)
      ensures UndoTarget().Some?
      ensures var f := finished.value;
              Doomed(UndoTarget().value, engine.actors) == LivePasted(f.spawned, engine.actors) <==>
              (forall i :: 0 <= i < |f.bp.pieces| && f.spawned[i].Some? && f.spawned[i].value in engine.actors ==>
                 IsRecoverable(f.bp, f.opts, f.spawned, f.diagonal, i)) &&
              (forall id :: id in engine.actors && Some(id) !in f.spawned ==>
                 !IsTaken(f.bp, f.opts, f.spawned, f.diagonal, engine.actors[id]))
    {
      hide StoredRecord, Doomed, RecordOf, IsUnmoved, IsRecoverable, IsTaken, LivePasted;
      var f := finished.value;
      UndoTargetsFinished();
      UndoIsExactIff(f.bp, f.opts, f.spawned, f.diagonal, engine.actors);
    }

    /** The same after a reload, from the file alone: `f` is the paste whose record it holds. */
    lemma UndoIsExactAfterReload(f: Finished)
      requires Valid() && last == EMPTY_RECORD && IsFinished(f) && FinishedRecord(f).items != []
      requires TypedRecord(FinishedRecord(f)) && SurvivesText(files, FinishedRecord(f))
      requires undoFile.Some? && undoFile == PackedRecord(files, FinishedRecord(f))
      requires IsUnmoved(f.bp, f.opts, f.spawned, engine.actors)
      ensures UndoTarget().Some?
      ensures Doomed(UndoTarget().value, engine.actors) == LivePasted(f.spawned, engine.actors) <==>
              (forall i :: 0 <= i < |f.bp.pieces| && f.spawned[i].Some? && f.spawned[i].value in engine.actors ==>
                 IsRecoverable(f.bp, f.opts, f.spawned, f.diagonal, i)) &&
              (forall id :: id in engine.actors && Some(id) !in f.spawned ==>
                 !IsTaken(f.bp, f.opts, f.spawned, f.diagonal, engine.actors[id]))
    {
      hide StoredRecord, Doomed, RecordOf, IsUnmoved, IsRecoverable, IsTaken, LivePasted, PackedRecord, TypedRecord,
        SurvivesText;
      RecordIsValid(f.bp, f.opts, f.spawned, f.diagonal);
      StoredRecordComesBack(files, FinishedRecord(f));
      UndoIsExactIff(f.bp, f.opts, f.spawned, f.diagonal, engine.actors);
    }

    /** The record is reset and then filled field by field; a read that fails half-way leaves it not valid. */
    method LoadUndo() returns (ok: bool)
      modifies `last
      ensures ok <==> StoredRecord(files, undoFile).Some?
      ensures ok ==> last == StoredRecord(files, undoFile).value
      ensures !ok ==> last == old(last) || !last.valid
    {
      if undoFile.None? { return false; }
      var unpacked, raw := Gzip.Decompress(files.codec, undoFile.value, []);
      if !unpacked { return false; }
      var j := files.parse(raw);
      if j.None? { return false; }
      last := EMPTY_RECORD;
      var lo := ReadCorner(j.value, LO);
      if lo.Err? { return false; }
      last := last.(lo := lo.value);
      var hi := ReadCorner(j.value, HI);
      if hi.Err? { return false; }
      last := last.(hi := hi.value);
      var paths := At(j.value, CLASSES);
      if paths.Err? { return false; }
      var classes := ReadStrings(paths.value);
      if classes.Err? { return false; }
      last := last.(classes := classes.value);
      var list := At(j.value, ITEMS);
      if list.Err? || !list.value.JArr? { return false; }
      ok := LoadItems(list.value.elems);
      if ok { last := last.(valid := last.items != []); }
      ok := ok && last.valid;
    }

    method LoadItems(es: seq<Json>) returns (ok: bool)
      requires last.items == []
      modifies `last
      ensures last == old(last).(items := last.items)
      ensures var read := ReadAll(es, e => ReadUndoItem(e));
              if ok then read == Ok(last.items) else read.Err?
    {
      ghost var read := (e: Json) => ReadUndoItem(e);
      for k := 0 to |es|
        invariant last == old(last).(items := last.items)
        invariant |last.items| == k && forall i :: 0 <= i < k ==> read(es[i]) == Ok(last.items[i])
      {
        var it := ReadUndoItem(es[k]);
        if it.Err? {
          ReadAllFails(es, read, k);
          return false;
        }
        last := last.(items := last.items + [it.value]);
      }
      ReadAllInverts(es, read, last.items);
      ok := true;
    }

    method CollectWanted(rec: PasteRecord) returns (wanted: map<Bucket, string>)
      ensures wanted == Wanted(rec, |rec.items|)
    {
      wanted := map[];
      for i := 0 to |rec.items|
        invariant wanted == Wanted(rec, i)
      {
        var it := rec.items[i];
        if 0 <= it.cls < |rec.classes| {
          wanted := wanted[BucketOf(ItemPos(it)) := rec.classes[it.cls]];
        }
      }
    }

    /** The actors both octree groups return, one group after the other: the first `n` are of the first. */
    method CollectLive(s: Sphere) returns (live: seq<ActorId>, ghost n: nat)
      ensures IsLive(engine.actors, s, live, n)
    {
      var first := engine.GetAllActorsInRange(s, STRUCTURES);
      var second := engine.GetAllActorsInRange(s, STRUCTURES_CORE);
      var a := WithoutNull(first);
      var b := WithoutNull(second);
      ListingFromAnswer(engine.actors, s, STRUCTURES, first, a);
      ListingFromAnswer(engine.actors, s, STRUCTURES_CORE, second, b);
      live, n := a + b, |a|;
      assert live[..n] == a && live[n..] == b;
    }

    method WithoutNull(found: seq<Option<ActorId>>) returns (ids: seq<ActorId>)
      requires forall i, j :: 0 <= i < j < |found| && found[i].Some? ==> found[i] != found[j]
      ensures Distinct(ids) && forall id :: id in ids <==> Some(id) in found
    {
      ids := [];
      for i := 0 to |found|
        invariant Distinct(ids) && forall id :: id in ids <==> Some(id) in found[..i]
      {
        assert found[..i + 1] == found[..i] + [found[i]];
        if found[i].Some? {
          assert found[i] !in found[..i];
          ids := ids + [found[i].value];
        }
      }
    }

    /**
     * Destroys every listed actor that stands in a recorded bucket with its recorded class.  The
     * counter runs once more for each of them that both groups list.
     */
    method DestroyMatching(rec: PasteRecord, wanted: map<Bucket, string>, live: seq<ActorId>, ghost n: nat)
      returns (destroyed: nat)
      requires engine.Valid() && wanted == Wanted(rec, |rec.items|) && IsLive(engine.actors, UndoSphere(rec), live, n)
      modifies engine
      ensures engine.Valid()
      ensures engine.actors == old(engine.actors) - Doomed(rec, old(engine.actors))
      ensures IsDestruction(old(engine.trace), engine.trace, destroyed, Doomed(rec, old(engine.actors)))
      ensures destroyed == Destructions(Doomed(rec, old(engine.actors)), old(engine.actors))
    {
      hide Wanted, UndoSphere, IsWanted, IsDestruction, IsLive, Doomed, Destructions, Hits, HitCount, Distinct;
      LiveIsReadable(engine.actors, UndoSphere(rec), live, n);
      var w := engine.actors;   // an actor stays readable until the next collection
      ghost var trace0, gone: set<ActorId> := engine.trace, {};
      NothingDestroyed(trace0);
      NoHits(w, wanted, live, n);
      destroyed := 0;
      for i := 0 to |live|
        invariant engine.Valid() && engine.actors == w - gone
        invariant gone == Hits(w, wanted, live[..i]) && destroyed == HitCount(w, wanted, live, n, i)
        invariant IsDestruction(trace0, engine.trace, destroyed, gone)
      {
        var id := live[i];
        OneMoreHit(w, wanted, live, i);
        OneMoreCounted(w, wanted, live, n, i);
        if IsWanted(wanted, w[id]) {
          OneMoreDestroyed(trace0, engine.trace, destroyed, gone, id);
          engine.DestroyActor(id);
          destroyed := destroyed + 1;
          gone := gone + {id};
        }
      }
      HitsAreDoomed(rec, w, live, n);
    }

    /** `removed` says whether the file could be deleted afterwards. */
    method UndoLastPaste(removed: bool) returns (destroyed: nat, error: Option<UndoError>)
      requires Valid()
      modifies this, engine
      ensures Valid() && job == old(job)
      ensures error == if old(job) != null then Some(StillRunning)
                       else if old(UndoTarget()).None? then Some(NothingToUndo)
                       else if Wanted(old(UndoTarget()).value, |old(UndoTarget()).value.items|) == map[]
                       then Some(NothingToUndo)
                       else None
      ensures error.Some? ==> destroyed == 0 && engine.actors == old(engine.actors) && engine.trace == old(engine.trace)
      ensures error.None? ==>
                var doomed := Doomed(old(UndoTarget()).value, old(engine.actors));
                engine.actors == old(engine.actors) - doomed &&
                IsDestruction(old(engine.trace), engine.trace, destroyed, doomed) &&
                destroyed == Destructions(doomed, old(engine.actors))
      ensures error.None? ==> last == EMPTY_RECORD && finished == None && stored == removed
      ensures error.Some? ==> finished == old(finished) && stored == old(stored)
      ensures undoFile == if error.None? && removed then None else old(undoFile)
    {
      hide StoredRecord, Matches, InReach, Wanted, IsDestruction, IsLive, Destructions;
      NoFileNoRecord(files);
      destroyed := 0;
      if job != null { return 0, Some(StillRunning); }
      if !last.valid || last.items == [] {
        var ok := LoadUndo();
        if !ok { return 0, Some(NothingToUndo); }
      }
      var rec := last;
      var wanted := CollectWanted(rec);
      if wanted == map[] { return 0, Some(NothingToUndo); }
      var center := UndoSphere(rec);
      var live, n := CollectLive(center);
      destroyed := DestroyMatching(rec, wanted, live, n);
      last := EMPTY_RECORD;
      finished := None;
      stored := removed;
      if removed { undoFile := None; }
      error := None;
    }
  }

  /** Between the two traces lie `count` destroy calls, for exactly the actors of `gone`. */
  ghost predicate IsDestruction(before: seq<Event>, after: seq<Event>, count: nat, gone: set<ActorId>) {
    before <= after && |after| == |before| + count &&
    (forall k :: |before| <= k < |after| ==> after[k].Destroy? && after[k].actor in gone) &&
    (forall id :: id in gone ==> Destroy(id) in after[|before|..])
  }

  lemma NothingDestroyed(trace: seq<Event>)
    ensures IsDestruction(trace, trace, 0, {})
  {
  }

  lemma OneMoreDestroyed(before: seq<Event>, after: seq<Event>, count: nat, gone: set<ActorId>, id: ActorId)
    requires IsDestruction(before, after, count, gone)
    ensures IsDestruction(before, after + [Destroy(id)], count + 1, gone + {id})
  {
    var more := after + [Destroy(id)];
    assert more[|before|..] == after[|before|..] + [Destroy(id)];
  }

  lemma NoFileNoRecord(files: Files)
    ensures StoredRecord(files, None) == None
  {
  }

  /** How often `destroyed` is counted up: once per actor, and once more for one that both groups list. */
  function Destructions(ids: set<ActorId>, w: Actors): nat {
    |ids| + |set id | id in ids && id in w && w[id].groups == {STRUCTURES, STRUCTURES_CORE}|
  }

  /** An octree query's answer without its null entries. */
  ghost predicate IsListing(w: Actors, s: Sphere, g: Group, ids: seq<ActorId>) {
    Distinct(ids) && (forall id :: id in w && InRange(w[id], s, g) ==> id in ids) &&
    forall id :: id in ids ==> id in w && g in w[id].groups && (w[id].transform.Some? ==> InRange(w[id], s, g))
  }

  /** The answers of both queries, one after the other. */
  ghost predicate IsLive(w: Actors, s: Sphere, live: seq<ActorId>, n: nat) {
    n <= |live| && IsListing(w, s, STRUCTURES, live[..n]) && IsListing(w, s, STRUCTURES_CORE, live[n..])
  }

  lemma ListingFromAnswer(w: Actors, s: Sphere, g: Group, found: seq<Option<ActorId>>, ids: seq<ActorId>)
    requires IsQueryAnswer(w, s, g, found) && Distinct(ids) && forall id :: id in ids <==> Some(id) in found
    ensures IsListing(w, s, g, ids)
  {
    hide InRange;
  }

  lemma LiveIsReadable(w: Actors, s: Sphere, live: seq<ActorId>, n: nat)
    requires IsLive(w, s, live, n)
    ensures n <= |live| && Distinct(live[..n]) && Distinct(live[n..])
    ensures forall id :: id in live ==> id in w
  {
    assert live == live[..n] + live[n..];
  }

  /** The actors of a list that an undo takes. */
  ghost function Hits(w: Actors, wanted: map<Bucket, string>, ids: seq<ActorId>): set<ActorId> {
    set id | id in ids && id in w && IsWanted(wanted, w[id])
  }

  /** How many of the first `i` actors found are taken, each group's answer for itself. */
  ghost function HitCount(w: Actors, wanted: map<Bucket, string>, live: seq<ActorId>, n: nat, i: nat): nat
    requires n <= |live| && i <= |live|
  {
    if i <= n then |Hits(w, wanted, live[..i])|
    else |Hits(w, wanted, live[..n])| + |Hits(w, wanted, live[n..i])|
  }

  lemma NoHits(w: Actors, wanted: map<Bucket, string>, live: seq<ActorId>, n: nat)
    requires n <= |live|
    ensures Hits(w, wanted, live[..0]) == {} && HitCount(w, wanted, live, n, 0) == 0
  {
    assert Hits(w, wanted, live[..0]) == {};
  }

  lemma HitsGrow(w: Actors, wanted: map<Bucket, string>, ids: seq<ActorId>, id: ActorId)
    requires id in w
    ensures Hits(w, wanted, ids + [id])
            == if IsWanted(wanted, w[id]) then Hits(w, wanted, ids) + {id} else Hits(w, wanted, ids)
    ensures id !in ids ==> id !in Hits(w, wanted, ids)
  {
    hide IsWanted;
  }

  lemma OneMoreHit(w: Actors, wanted: map<Bucket, string>, live: seq<ActorId>, i: nat)
    requires i < |live| && live[i] in w
    ensures Hits(w, wanted, live[..i + 1])
            == if IsWanted(wanted, w[live[i]]) then Hits(w, wanted, live[..i]) + {live[i]}
               else Hits(w, wanted, live[..i])
  {
    hide IsWanted, Hits;
    assert live[..i + 1] == live[..i] + [live[i]];
    HitsGrow(w, wanted, live[..i], live[i]);
  }

  /** Within one group's answer no actor is found twice, so each hit there counts. */
  lemma OneMoreCounted(w: Actors, wanted: map<Bucket, string>, live: seq<ActorId>, n: nat, i: nat)
    requires n <= |live| && Distinct(live[..n]) && Distinct(live[n..]) && i < |live| && live[i] in w
    ensures HitCount(w, wanted, live, n, i + 1)
            == HitCount(w, wanted, live, n, i) + if IsWanted(wanted, w[live[i]]) then 1 else 0
  {
    hide IsWanted, Hits, Distinct;
    var from := if i < n then 0 else n;
    assert live[i] !in live[from..i] by {
      if i < n { NotBefore(live[..n], i); } else { NotBefore(live[n..], i - n); }
    }
    HitsGrowBy(w, wanted, live, from, i);
    if i == n { assert live[n..i] == live[..0]; NoHits(w, wanted, live, n); }
  }

  lemma HitsGrowBy(w: Actors, wanted: map<Bucket, string>, live: seq<ActorId>, from: nat, i: nat)
    requires from <= i < |live| && live[i] in w && live[i] !in live[from..i]
    ensures |Hits(w, wanted, live[from..i + 1])|
            == |Hits(w, wanted, live[from..i])| + if IsWanted(wanted, w[live[i]]) then 1 else 0
  {
    hide IsWanted, Hits;
    assert live[from..i + 1] == live[from..i] + [live[i]];
    HitsGrow(w, wanted, live[from..i], live[i]);
  }

  lemma NotBefore(ids: seq<ActorId>, i: nat)
    requires Distinct(ids) && i < |ids|
    ensures ids[i] !in ids[..i]
  {
  }

  /** Going through the query answers takes the same actors as looking at the whole world. */
  lemma HitsAreDoomed(rec: PasteRecord, w: Actors, live: seq<ActorId>, n: nat)
    requires IsLive(w, UndoSphere(rec), live, n)
    ensures var wanted := Wanted(rec, |rec.items|);
            Hits(w, wanted, live[..|live|]) == Doomed(rec, w) &&
            HitCount(w, wanted, live, n, |live|) == Destructions(Doomed(rec, w), w)
  {
    hide IsWanted, Wanted, Hits, IsListing, UndoSphere, InSphere;
    var wanted, doomed := Wanted(rec, |rec.items|), Doomed(rec, w);
    var a, b := Hits(w, wanted, live[..n]), Hits(w, wanted, live[n..]);
    HitsOfGroup(rec, w, STRUCTURES, live[..n]);
    HitsOfGroup(rec, w, STRUCTURES_CORE, live[n..]);
    HitsAppend(w, wanted, live[..n], live[n..]);
    assert live[..|live|] == live[..n] + live[n..];
    forall id | id in doomed
      ensures id in a || id in b
      ensures id in a && id in b <==> w[id].groups == {STRUCTURES, STRUCTURES_CORE}
    {
      BothGroups(w[id].groups);
    }
    assert a + b == doomed;
    assert a * b == set id | id in doomed && id in w && w[id].groups == {STRUCTURES, STRUCTURES_CORE};
    if n == |live| {
      assert live[n..] == [];
      NoHits(w, wanted, live, n);
    }
  }

  lemma HitsAppend(w: Actors, wanted: map<Bucket, string>, a: seq<ActorId>, b: seq<ActorId>)
    ensures Hits(w, wanted, a + b) == Hits(w, wanted, a) + Hits(w, wanted, b)
  {
    hide IsWanted;
  }

  lemma HitsOfGroup(rec: PasteRecord, w: Actors, g: Group, ids: seq<ActorId>)
    requires IsListing(w, UndoSphere(rec), g, ids)
    ensures Hits(w, Wanted(rec, |rec.items|), ids) == set id | id in Doomed(rec, w) && g in w[id].groups
  {
    hide Wanted, UndoSphere, InSphere;
  }

  lemma BothGroups(groups: set<Group>)
    ensures STRUCTURES in groups && STRUCTURES_CORE in groups <==> groups == {STRUCTURES, STRUCTURES_CORE}
    ensures STRUCTURES in groups || STRUCTURES_CORE in groups <==> groups != {}
  {
    forall g | g in groups
      ensures g == STRUCTURES || g == STRUCTURES_CORE
    {
    }
    if groups != {} {
      var g :| g in groups;
    }
  }

  lemma NewSinceMore(before: Answers, answers: Answers, w0: Actors, w: Actors)
    requires before <= answers && w0.Keys <= w.Keys
    requires AreNewSince(before, 0, w0) && AreNewSince(answers, |before|, w)
    ensures AreNewSince(answers, 0, w0)
  {
    forall j | 0 <= j < |answers| && answers[j].Some?
      ensures answers[j].value !in w0
    {
      if j < |before| { assert answers[j] == before[j]; }
    }
  }

  lemma RecordIsValid(bp: Blueprint, opts: PasteOptions, spawned: Answers, diagonal: real)
    requires |bp.pieces| == |spawned|
    ensures RecordOf(bp, opts, spawned, diagonal).valid
  {
  }
}
