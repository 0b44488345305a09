# StructureBlueprint, proved in Dafny

The repository is a server plugin that copies player-built bases: it captures the structures in a
box, saves them as a blueprint, pastes the blueprint elsewhere a few pieces per tick, previews a
paste before it runs, and undoes the last paste after the fact. It ships with the plugin SDK it
hooks into. This project models both and proves what they are for.

Check it with `dafny verify dfyconfig.toml` in this directory.

## What is modelled

The files follow the program. Code that changes things step by step is a method or a class with
loops and invariants, proved against a function or relation on values; the theorems are about
those.

- `Geometry`, `Arithmetic`, `Wrappers`, `Json`: shared vocabulary. Rotation is by a pair (c, s)
  with c² + s² = 1; coordinates are reals. `Json` is the tree of a document, with the accessors
  and integer conversions the plugin uses.
- `World`: the engine. Actors have an identity that is never reused, a class path, perhaps a
  transform, a link list, a floor and octree groups. A spawn may fail at any time. `Event` and
  `Replay` give the calls that change the world a meaning, so a run is the list of its calls.
- `Capture`, `CaptureGraph`: two passes turn a graph of actors into a blueprint of indices.
- `Model`, `Gzip`, `Storage`: blueprints as JSON, gzip members, saves on disk.
- `PasteSpec`, `Paste`, `PastePlugin`, `PasteWorld`: the two-phase, budgeted paste. `PasteSpec`
  says what one uninterrupted pass would do (`OneShot`); `Paste` is the job that may stop after any
  step; `PastePlugin` holds the job, the undo record in memory and the one on disk; `PasteWorld`
  says what the pass leaves behind.
- `Undo`: the undo record, its file, and which actors an undo takes for the pieces of the paste.
- `Pipeline`: capture, save, load, paste and undo put together.
- `Terrain`, `Preview`, `Pending`: settling a build on the ground, the dry run and its burial check,
  and the previews waiting for an answer.
- `Hooks`, `Commands`, `StdAlgorithms`, `Timer`, `Fields`: the SDK's detour chains, command
  registry, timers and bit fields.

## Main results

- **Copies.** Capture a selection and paste it, whatever the engine answers to each spawn: every
  captured actor that was spawned has one new copy of its class, on the copy of its floor, and the
  copy's link list is the original's with every reference to another captured actor replaced by its
  copy, in order, whatever was skipped or failed (`Pipeline.PastedGraphIsImage`); two copies are linked
  exactly as often as their originals (`Pipeline.PastedPairsAreImage`). A floor strictly lower that was
  spawned is never lost (`Pipeline.LowerFloorIsCopied`). Whatever the turn, yaw, sink and origin, a copy
  stands at the origin plus the turned offset of its original, lowered by the sink, with its pitch and
  roll and its yaw advanced (`Pipeline.PastedAsTurned`); unturned at the capture corner that is where
  the original stood (`Pipeline.PastedInPlace`).
- **Capture.** An actor of the two groups with a transform and a path is captured if and only if, on
  every axis, it lies between the two corners, set in either order, give or take the margin; origin and
  size of the blueprint are those bounds (`Capture.CaptureSelection`).
- **Throttling changes nothing.** At every rate b, the one asked for or 25, the calls of a whole run are
  those of the uninterrupted pass, and the run takes exactly ceil(n/b) + ceil(W/b) ticks
  (`PastePlugin.Plugin.RunToCompletion`, `Paste.PasteJob.EndIsOneShot`).
- **Undo.** For every sink and every offset, an undo destroys the surviving pieces of the last
  finished paste and nothing else if and only if each of them was spawned inside the search sphere in
  a bucket that keeps its class, and no foreign actor stands inside it in a bucket whose last
  recorded piece has its class (`Undo.UndoIsExactIff`). Two positions share a bucket exactly when on each
  axis both lie from 10k - 5 to 10k + 5 for one k, halves away from zero (`Undo.SharesBucketIff`), which
  is how far an actor may drift and still be found. On the plugin that holds after any run of
  begin, tick, cancel and undo (`PastePlugin.Plugin.UndoIsExactHere`) and after a reload from the
  file alone (`PastePlugin.Plugin.UndoIsExactAfterReload`). Pasting and undoing an unsunk build returns
  the world it started from when its pieces are 18 units apart and inside its extent, their classes
  have a path and an octree group, no foreign actor shares a piece's bucket and class, and some spawn
  succeeded (`Pipeline.PasteThenUndo`). After a cancel the undo works from the paste begun last if and
  only if that had come to its end with a piece spawned, or the file already held its very record
  (`Pipeline.PasteForAWhileThenUndo`). The number of actors it reports is exact
  (`PastePlugin.Plugin.DestroyMatching`).
- **Formats.** The gzip reader unpacks every member of RFC 1952 section 2.3
  (`Gzip.UnpacksEveryRfcMember`; byte for byte: `Gzip.UnpacksLaidOutBytes`) and accepts exactly the strings with a member's layout
  (`Gzip.AcceptsExactlyMembers`); which of the strings it unpacks are members is stated exactly
  (`Gzip.ConformsIff`). Any document that loads is a fixed point after one more save and load
  (`Model.ResaveIsFixedPoint`). A save keeps its promise, the whole
  new text on success and no change on failure, if and only if no bytes are lost at the close of the
  temporary file behind steps that all succeed (`Storage.Library.Save`, `Storage.SaveIsWholeIff`).
- **Fast forms.** The cached burial check finds what sampling under every piece finds, for every x and
  for y in a window of 2^21 units around zero, and the window is sharp (`Preview.BurialIsExact`,
  `Preview.CachedIsDirect`, `Preview.KeyIsInjective`, `Preview.WindowIsSharp`).
- **SDK.** Detours run newest to oldest and then the original once, after any sequence of hooks set
  and disabled (`Hooks.Hooks.CallsFollowLive`), as long as no hook is set with a detour that is live on
  this or another function; a hook keeps that order if and only if its detour is not live
  (`Hooks.HookKeepsOrderIff`). Each timer in the list behaves as if it were alone
  (`Timer.UpdateIsFaithful`); removal through an aliased slot is exact if and only if the next
  element is different and does not occur again (`StdAlgorithms.RemovesOneIff`).

## Where the code and its documentation part

The model follows the code.

- The comment at src/Paste.cpp:452-454 says 10-unit buckets cannot collide. Two pieces of different
  classes in one place do collide, and undo leaves one standing: `Undo.SharedBucketIsMissed`.
- Line 308 of src/Paste.cpp lowers the actor by the sink, lines 254-260 record it unlowered. A piece
  sunk by ten units is missed by the undo of its own paste (`Undo.SunkPieceIsMissed`); of two stacked
  pieces sunk by their distance the lower is missed, and the upper is taken only because it stands
  in the lower one's bucket (`Undo.StackedPieceIsMissed`).
- The comment at src/Paste.cpp:488-489 says a pre-existing structure is never destroyed by mistake.
  One of the same class in the same place is: `Undo.TwinIsDoomed`.
- src/Paste.h:52 says undo destroys the most recent paste. A cancelled paste leaves its pieces in the
  world without a record, and beginning it has dropped the record in memory, so an undo after a cancel
  goes back to the finished paste on disk and takes that one's pieces (`Pipeline.CancelThenUndo`), or
  finds nothing while the pieces stay; exactly when it takes the paste begun last:
  `Pipeline.PasteForAWhileThenUndo`.
- The comment at src/Paste.cpp:445-446 says undo survives a reload. The record is written without looking
  at whether it could be: it survives if and only if all of it reached the disk, or nothing was written
  and the file held the same record already (`PastePlugin.RecordSurvivesIff`).
- The comment at src/Storage.cpp:56-57 says an interrupted save cannot leave a truncated entry. The
  stream is tested at line 65 and flushed when it is closed at line 66, where a failure is not looked
  at: on a disk that is full by then the good save is replaced by a part of the new one, and the save
  reports success (`Storage.LostSaveIsCorrupt`). Exactly when: `Storage.SaveIsWholeIff`.
- src/Paste.h:38 warns that adjusting to the ground twice stacks. A second adjustment does not stack by
  itself: its traces start from the adjusted height, and the origin moves again exactly when the
  heights they lose and gain shift the target, which `Terrain.AdjustTwiceIff` spells out for each
  mode. It does move again over a spire: `Terrain.SpireMovesAgain`.
- Section 2.3 of RFC 1952 asks for zero reserved flags, a right size, a right header CRC and an extra
  field made of subfields. The reader checks none of them (`Gzip.OnlyPayloadAndCrcCount`): a string
  with flag 0x20 is unpacked and is no member (`Gzip.ReservedFlagIsAccepted`).
- src/Preview.cpp:24-26 says clearing the preview removes the markers. It removes those within 100000
  units of the origin whose class is in the octree group STRUCTURES. A corner farther out keeps its
  marker, at every turn (`Pending.FarMarkerStays`), and all four stay when the marker is of a class that
  STRUCTURES does not list, as the fallback to the build's own class can be (`Pending.CoreMarkersStay`);
  exactly when the world is restored: `Pending.Previews.ShowThenConfirm`.
- A recurring timer with a counter below minus one never runs and is never erased:
  `Timer.OtherNegativesNeverFire`, `Timer.Timer.NothingIsLost`.
- sdk/Public/IHooks.h:12-18 promises the order of hooks for every function, and hooking accepts a
  detour that is live already. Live on the same function, every later call runs for ever
  (`Hooks.RehookNeverReturns`). Live on another function, every call of that one which returns ends in
  the original of the newly hooked one, and its own original never runs (`Hooks.SharedCallEndsInName`;
  two functions with one detour: `Hooks.SharedDetourMisleads`). Exactly when the order is kept:
  `Hooks.HookKeepsOrderIff`.

## Model

| member | source | states |
|---|---|---|
| Geometry.SphereCoversBox | src/Capture.cpp:47-54 | every point of a box lies in its enclosing sphere, so the sphere query cannot miss one |
| Geometry.RotationIsIsometry | src/ArkUtils.h:52-62 | turning keeps the horizontal length of every offset and does not touch its height |
| Json.WrapIsTheCongruent | src/Model.h:129 | a cast to a narrower integer gives the one value of that type congruent to the number |
| Model.ItemToJson | src/Model.h:80-88 | the document of an item holds class and quantity always, and each other key exactly when its field is not the default |
| Model.PieceToJson | src/Model.h:101-115 | the document of a piece holds class, position and rotation, and each other key exactly when its field is set |
| Model.WriteStructure | src/Model.h:103-110 | the structural keys, each present exactly under its condition |
| Model.WriteDeviceState | src/Model.h:111-114 | the device keys, each present exactly under its condition, and nothing already written is lost |
| Model.BlueprintToJson | src/Model.h:142-156 | the document of a build holds all ten keys |
| Model.PieceFromJson | src/Model.h:117-140 | the statements read what the specification of reading says, errors included |
| Model.ItemRoundTrip | src/Model.h:80-99 | an item is read back as it was written |
| Model.PieceRoundTrip | src/Model.h:101-140 | a piece is read back as it was written, with negative floor, range setting, ammo and activation become minus one |
| Model.BlueprintRoundTrip | src/Model.h:142-173 | a build is read back with every nested piece and item, normalised as above |
| Model.ReadPieceTyped | src/Model.h:117-140 | whatever document a piece was read from, its fields have the values of their integer types |
| Model.ReadBlueprintTyped | src/Model.h:158-173 | the same for a whole build |
| Model.ResaveIsFixedPoint | src/Model.h:80-173 | for any document that loads: save and load gives the normalised build, and doing so again changes nothing |
| Model.Format1Migrates | src/Model.h:117-140 | loading a format-1 piece, saving it and loading it again gives the same piece under the new key |
| Gzip.ReadUndoesPut | src/Gzip.cpp:15-29 | reading a little-endian word inverts writing it, for all 2^32 words |
| Gzip.PutUndoesRead | src/Gzip.cpp:15-29 | writing inverts reading, for all four-byte strings |
| Gzip.PutLE32 | src/Gzip.cpp:15-21 | appends the four bytes of the word, low byte first |
| Gzip.Compress | src/Gzip.cpp:32-57 | success is deflate's; the output is the printed member without optional fields; a failure leaves the output alone |
| Gzip.SkipZeroTerminated | src/Gzip.cpp:79-80 | the loop stops one past the first zero, or one past the end |
| Gzip.SkipHeader | src/Gzip.cpp:61-89 | the checks and skips before the payload give the specified start for arbitrary bytes, with every index proved inside the buffer |
| Gzip.Decompress | src/Gzip.cpp:59-106 | result and output for arbitrary bytes; a CRC mismatch still overwrites the output |
| Gzip.SkipperReadsPrintedMember | src/Gzip.cpp:66-91 | on every member printed with any mix of FEXTRA, FNAME, FCOMMENT and FHCRC, exactly the payload and the stored CRC are found |
| Gzip.AcceptedIsPrinted | src/Gzip.cpp:61-91 | whatever passes the header checks is the printed form of the member read from it |
| Gzip.AcceptsExactlyMembers | src/Gzip.cpp:61-91 | the header checks pass if and only if the bytes have the layout of some member, with reserved flags, size and header CRC left open |
| Gzip.UnpacksEveryMember | src/Gzip.cpp:59-106 | every member unpacks to inflate's answer on its payload, provided the CRC agrees |
| Gzip.UnpacksLaidOutBytes | src/Gzip.cpp:59-106 | the same on bytes: flags 0x04, 0x08, 0x10 and 0x02, the length as low byte plus 256 times high byte, the fields in their order |
| Gzip.PlainBytes | src/Gzip.cpp:44-54 | the bytes the writer emits around the payload |
| Gzip.UnpackUndoesCompress | src/Gzip.cpp:32-106 | decompressing what was compressed gives the original bytes |
| Gzip.OnlyPayloadAndCrcCount | src/Gzip.cpp:64-105 | members with the same payload and CRC unpack alike, whatever their flags, size, names and header CRC |
| Gzip.UnpacksEveryRfcMember | src/Gzip.cpp:59-106 | every member of RFC 1952 is unpacked to its data |
| Gzip.CompressConforms | src/Gzip.cpp:32-57 | what the writer emits is a member of RFC 1952 in full |
| Gzip.ConformsIff | src/Gzip.cpp:59-106 | a string that unpacks is a member of RFC 1952 if and only if its reserved flags are zero, its size and header CRC are right and its extra field is a series of subfields |
| Gzip.AreSubfieldsIff | src/Gzip.cpp:71-76 | an extra field is a series of subfields exactly when it is printed from one |
| Gzip.ReservedFlagIsAccepted | src/Gzip.cpp:64-91 | the input that is no member of RFC 1952 and is unpacked: any compressed data under flag 0x20 |
| Storage.Library.Save | src/Storage.cpp:42-75 | the first step seen to fail decides the error; the saves and the temporary files left behind, bytes lost at the close included; the promise of a whole save is kept if and only if none are lost behind a success |
| Storage.SaveIsWholeIff | src/Storage.cpp:56-70 | the whole new text on success and no change on failure, if and only if no bytes are lost when the file is closed after steps that all succeed |
| Storage.LostSaveIsCorrupt | src/Storage.cpp:61-70 | the input on which it is not: fewer bytes land than a gzip member needs, the save reports success, and loading it fails |
| Storage.Library.Load | src/Storage.cpp:77-104 | each error in its order, else the build of the document |
| Storage.SaveThenLoad | src/Storage.cpp:42-104 | a saved build loads normalised, and a newer format is refused |
| Capture.CollectInSphere | src/Capture.cpp:66-85 | the union of both groups' answers, each actor once, in order of first appearance |
| Capture.KeepInBox | src/Capture.cpp:248-277 | the kept actors in order, the index table as their exact inverse, and the counts of unreadable and near-miss actors |
| Capture.Intern | src/Capture.cpp:306-312 | a path is added to the dictionary exactly when it is new, and its index is found |
| Capture.MakePieces | src/Capture.cpp:291-386 | a bare piece per resolvable actor, the dictionary in order of first use, and the remap as the index among resolvable actors or minus one |
| Capture.LinkOne | src/Capture.cpp:395-428 | one actor's floor and links through the tables equal those computed from the actors directly |
| Capture.LinkPieces | src/Capture.cpp:388-429 | the same for all pieces, with the three counters |
| Capture.Serialise | src/Capture.cpp:291-431 | both passes together |
| Capture.CaptureSelection | src/Capture.cpp:225-435 | every error in its order, what each leaves of the caller's blueprint, the statistics and the blueprint; captured is exactly what lies within the corners and the margin, and the recorded box is that |
| Capture.KeptIsEverythingInBox | src/Capture.cpp:233-277 | kept is exactly the readable in-box actors of the two groups, each once |
| Capture.CapturedIsSelected | src/Capture.cpp:233-277 | an actor is captured if and only if it is of the two groups, readable, with a path, and on each axis no farther than the margin outside the corners, in either order |
| CaptureGraph.EveryActorIsAccountedFor | src/Capture.cpp:255-304 | octree returned = outside the box + unreadable + without path + captured |
| CaptureGraph.EveryReferenceIsAccountedFor | src/Capture.cpp:414-428 | the non-null references of a captured actor split into links, outside, itself and skipped ones |
| CaptureGraph.DictionaryIsExact | src/Capture.cpp:306-315 | the dictionary has no duplicates, every entry is used, and each piece's index finds its own path |
| CaptureGraph.LinksKeepSourceOrder | src/Capture.cpp:414-428 | links are in range, never the piece itself, and name the inside references in source order |
| CaptureGraph.LinksCountReferences | src/Capture.cpp:414-428 | piece j is linked from piece i as often as the actor of i references the actor of j |
| CaptureGraph.BlueprintGraphIsInduced | src/Capture.cpp:291-429 | the blueprint graph is the subgraph induced on the captured actors, without self links |
| CaptureGraph.SymmetryIsKept | src/Capture.cpp:388-429 | a symmetric link graph is captured as a symmetric one |
| CaptureGraph.FloorIsItsPiece | src/Capture.cpp:398-412 | the floor index is the floor's own piece, minus one exactly when it was not captured or is the piece itself |
| CaptureGraph.RemapIncreases | src/Capture.cpp:291-304 | the remap is increasing where it is defined, so indices never drift |
| PasteSpec.SpawnedAfterAt | src/Paste.cpp:294-318 | each piece is placed once, so its table entry is its own spawn's answer |
| PasteSpec.EveryPlacementIsCounted | src/Paste.cpp:292-318 | actors in the table and successful placements are equally many at every step |
| PasteSpec.PlacementAdvances | src/Paste.cpp:292-340 | one placement is the next step of the uninterrupted pass |
| PasteSpec.FinalizedForOwner | src/Paste.cpp:320-338 | every finaliser call is for an actor of the paste, team first and owner second, and there is none for an invulnerable build |
| PasteSpec.EveryActorIsFinalized | src/Paste.cpp:320-338 | otherwise every spawned actor gets its finaliser call |
| PasteSpec.FloorIsPlacedFirst | src/Paste.cpp:332-338 | the finaliser gets a floor exactly when the floor index is in range, placed no later, and spawned |
| PasteSpec.LowerFloorIsPassed | src/Paste.cpp:217-226 | a spawned floor strictly below its piece is always passed |
| PasteSpec.SpawnedAreDistinct | src/Paste.cpp:311-318 | spawned actors are pairwise distinct |
| PasteSpec.EveryEdgeOnce | src/Paste.cpp:414-435 | two spawned pieces are linked exactly as often as the one lists the other |
| PasteSpec.OnlyListedEdges | src/Paste.cpp:416-433 | no other link call is made |
| PasteSpec.WorkLeft | src/Paste.cpp:414-437 | the work is used up exactly when the cursor has passed the last piece |
| PasteSpec.TicksForIsCeilDiv | src/Paste.cpp:288-292 | taking up to b units per tick needs the ceiling of the quotient in ticks |
| Paste.PasteJob.SpawnPiece | src/Paste.cpp:297-318 | one spawn attempt unless the class is missing, its table entry and the failure count |
| Paste.PasteJob.Finish | src/Paste.cpp:320-340 | the finaliser with the floor looked up in the table, unless invulnerable or failed, and the floor count |
| Paste.PasteJob.PlaceNext | src/Paste.cpp:292-340 | one round keeps the placing invariant: the log is a prefix of the uninterrupted pass and all counters agree with it |
| Paste.PasteJob.LinkNext | src/Paste.cpp:414-435 | one round keeps the linking invariant and does exactly one unit of work |
| Paste.PasteJob.TickPlacing | src/Paste.cpp:288-405 | a tick places min(rate, rest) pieces, the rate being the option or 25, and changes phase exactly at the end |
| Paste.PasteJob.TickLinking | src/Paste.cpp:407-435 | a tick does min(rate, rest) units of link work |
| Paste.PasteJob.EndIsOneShot | src/Paste.cpp:288-437 | at the end, whatever the budget was, the calls made are those of the uninterrupted pass |
| PastePlugin.SortByHeight | src/Paste.cpp:220-224 | some permutation of the pieces, ascending in z |
| PastePlugin.ResolveClasses | src/Paste.cpp:192-215 | which classes load, and that the missing count equals their number exactly when none does |
| PastePlugin.Plugin.BeginPaste | src/Paste.cpp:181-231 | each refusal in its order leaving everything alone, else a fresh job and an empty record |
| PastePlugin.Plugin.CancelPaste | src/Paste.cpp:179 | only the job goes |
| PastePlugin.Plugin.PersistUndo | src/Paste.cpp:62-84 | the file becomes the bytes of the packed record that reached the disk, or stays when compression or opening fails |
| PastePlugin.Plugin.DescribePaste | src/Paste.cpp:237-262 | the record: padded box, classes, and one item per spawned piece in piece order |
| PastePlugin.Plugin.FinishJob | src/Paste.cpp:235-277 | the record in memory is that of the finished paste, the file gets it as far as it is written, and no job remains |
| PastePlugin.Plugin.TickPaste | src/Paste.cpp:280-438 | what each tick does to job, world and records, in either phase, at the rate asked for or 25, and when it finishes the job |
| PastePlugin.Plugin.RunToCompletion | src/Paste.cpp:280-438 | from begin to end: the calls and the world are those of the uninterrupted pass, after exactly ceil(n/b) + ceil(W/b) ticks, ceil(n/b) when invulnerable, b being the rate asked for, or 25 for none |
| PastePlugin.Plugin.UndoTargetsFinished | src/Paste.cpp:229-263 | after any run of begin, tick, cancel and undo, an undo works from the last finished paste while its record is in memory or stored |
| PastePlugin.Plugin.UndoIsExactHere | src/Paste.cpp:440-509 | after any run, and while the record is in memory or stored, an undo is exact if and only if the pieces are recoverable and nothing foreign is taken |
| PastePlugin.Plugin.UndoIsExactAfterReload | src/Paste.cpp:445-503 | the same for a plugin that has only the stored file |
| PastePlugin.RecordSurvivesIff | src/Paste.cpp:62-84 | the file gives back the record of the finished paste if and only if all of it was written, or the file was left alone and held the same before, given that a part of a compressed record does not unpack |
| PastePlugin.Plugin.LoadUndo | src/Paste.cpp:86-114 | succeeds exactly on a stored usable record, and leaves the old record or one that is not valid when it fails |
| PastePlugin.Plugin.LoadItems | src/Paste.cpp:103-109 | the items are read one by one up to the first that fails |
| PastePlugin.Plugin.CollectWanted | src/Paste.cpp:461-466 | the table from buckets to class paths |
| PastePlugin.Plugin.CollectLive | src/Paste.cpp:479-486 | the actors both groups return, one group after the other |
| PastePlugin.Plugin.DestroyMatching | src/Paste.cpp:488-503 | exactly the matching actors are destroyed; the count is their number plus the number of those listed in both groups |
| PastePlugin.Plugin.UndoLastPaste | src/Paste.cpp:440-509 | each refusal in its order without touching the world, else exactly the doomed actors are destroyed, counted as above, and both records are gone |
| PasteWorld.PlaceAll | src/Paste.cpp:292-340 | after the placements the new actors stand at their destinations with their classes, rotations and floors, and old ones are untouched |
| PasteWorld.FloorOfPlacement | src/Paste.cpp:332-338 | the floor looked up at the moment of placing is the floor piece's actor if that piece is placed no later, else none |
| PasteWorld.LinksReplay | src/Paste.cpp:414-435 | link calls only append to the link lists of existing actors |
| PasteWorld.TargetsOfTrace | src/Paste.cpp:414-435 | the link phase gives each copy the image of its piece's link list, in order |
| PasteWorld.OneShotLeaves | src/Paste.cpp:290-437 | the world after an uninterrupted pass, for any spawn answers: copies with their places, classes, floors and links, and everything else untouched |
| Undo.ItemsAreSpawnedPieces | src/Paste.cpp:250-262 | the record's items are exactly the destinations of the spawned pieces |
| Undo.RecordRoundTrip | src/Paste.cpp:66-111 | a record read back is the one written, with validity recomputed |
| Undo.StoredRecordComesBack | src/Paste.cpp:62-114 | a stored record loads unchanged, and is usable exactly when it has an item |
| Undo.WantedIsLast | src/Paste.cpp:461-466 | the table holds, per bucket, the class of the last usable item in it |
| Undo.SharesBucketIff | src/Paste.cpp:455-459 | two positions share a bucket if and only if on each axis both lie in one interval from 10k - 5 to 10k + 5, halves away from zero |
| Undo.DoomedByItem | src/Paste.cpp:461-503 | for any record: an actor is destroyed if and only if it is a readable structure with a path within half the recorded box's diagonal of its middle, of the class of the last item near it |
| Undo.DoomedIsRecorded | src/Paste.cpp:488-503 | a destroyed actor's bucket and class were recorded together |
| Undo.TwinIsDoomed | src/Paste.cpp:488-503 | an actor of the same class in the same place is destroyed as well |
| Undo.SameBucketIsNear | src/Paste.cpp:455-459 | positions in one bucket are less than 18 units apart |
| Undo.TurnedWithinDiagonal | src/Paste.cpp:241-245 | whatever the turn, a piece stays within the footprint's diagonal |
| Undo.SpawnPointInReach | src/Paste.cpp:469-477 | every piece, sunk by no more than the slack, is inside the recorded box and its search sphere |
| Undo.WantedByPiece | src/Paste.cpp:461-466 | the table in terms of pieces: each bucket holds the class of the last piece spawned in it |
| Undo.DoomedByPiece | src/Paste.cpp:461-503 | any actor is destroyed if and only if it stands inside the sphere, given by its middle and radius, and the last piece recorded within those intervals of it has its class |
| Undo.PieceIsDoomed | src/Paste.cpp:440-509 | a piece still there is destroyed if and only if it was spawned inside the search sphere in a bucket that keeps its class, for every sink and offset |
| Undo.UndoMissesNothingIff | src/Paste.cpp:440-509 | no surviving piece is missed if and only if every one of them is recoverable in that sense |
| Undo.SearchSphereEncloses | src/Paste.cpp:469-477 | the sphere searched, from the origin, the height and the diagonal of the build with 200 units of slack |
| Undo.UndoIsExactIff | src/Paste.cpp:440-509 | exactly when an undo destroys the surviving pieces and nothing else, for every sink and every offset |
| Undo.BucketDecides | src/Paste.cpp:241-245 | within the slack and the extent the search sphere covers every piece |
| Undo.UndoInReachIff | src/Paste.cpp:440-509 | with a sink within the slack and offsets inside the extent, only the buckets and foreign actors decide |
| Undo.UndoIsExact | src/Paste.cpp:440-509 | it does, with no sink, pieces 18 units apart and no foreign match |
| Undo.SpacedKeepsClass | src/Paste.cpp:452-459 | pieces 18 units apart keep their buckets, unsunk |
| Undo.SunkPieceIsMissed | src/Paste.cpp:254-308 | an input on which undo misses: one piece sunk by ten units |
| Undo.StackedPieceIsMissed | src/Paste.cpp:254-308 | two pieces stacked 300 units apart and sunk by 300: the lower is missed, the upper taken |
| Undo.SharedBucketIsMissed | src/Paste.cpp:452-466 | two spawned pieces of different classes in one place: the earlier one is not destroyed |
| Pipeline.CapturedIsNormal | src/Capture.cpp:283-431 | a captured blueprint has the field types and is already normal |
| Pipeline.CapturedIsInside | src/Capture.cpp:287-318 | captured offsets lie inside the recorded extent |
| Pipeline.ImageIsCopies | src/Capture.cpp:414-428 | the copies named by a piece's links are the copies of its actor's inside references that were spawned, in order |
| Pipeline.AllAreCopied | src/Paste.cpp:420-431 | with every spawn successful these are the copies of all of them |
| Pipeline.PastedGraphIsImage | src/Paste.cpp:290-437 | capture then paste, for any spawn answers: each copy is new, of the original's class, on the copy of its floor, and linked to the copies of the original's references that were spawned |
| Pipeline.PastedPairsAreImage | src/Paste.cpp:407-435 | two copies are linked exactly as often as their distinct originals |
| Pipeline.PastedFloorIsImage | src/Paste.cpp:327-338 | the copy's floor is the copy of the original's floor if that was captured, placed no later and spawned, else none |
| Pipeline.LowerFloorIsCopied | src/Paste.cpp:217-226 | a captured floor strictly below its structure is the floor of the copy |
| Pipeline.PastedAsTurned | src/Paste.cpp:300-313 | for every turn, yaw, sink and origin: where the copy stands, and its rotation, from the transform of its original |
| Pipeline.PastedInPlace | src/Paste.cpp:300-313 | unturned, unsunk and at the capture corner, copies stand exactly where the originals stood |
| Pipeline.SavedCaptureLoads | src/Storage.cpp:42-104 | a captured build comes back from its save unchanged |
| Pipeline.PastedIsUnmoved | src/Paste.cpp:300-313 | right after the paste every piece stands where undo looks for it |
| Pipeline.UndoRestoresWorld | src/Paste.cpp:488-503 | taking away what the record finds gives the world before the paste |
| Pipeline.PasteThenUndo | src/Paste.cpp:280-509 | run to the end at any rate and undo: the world is back to what it was, if some spawn succeeded |
| Pipeline.CancelThenUndo | src/Paste.cpp:440-509 | after the cancel of a running paste, an undo destroys what the record of the last finished paste finds |
| Pipeline.PasteForAWhileThenUndo | src/Paste.h:52 | a paste, any ticks, a cancel and an undo: the undo works from this paste if and only if it had come to its end with a piece spawned, or the file held the very same record; what it does otherwise |
| Pipeline.TargetIsLastBegunIff | src/Paste.cpp:445-450 | the same about the two records |
| Terrain.AdjustOriginToGround | src/Paste.cpp:123-176 | the loops compute the specified origin from the heights the traces reach, and the spread of those heights |
| Terrain.SamplesSpanFootprint | src/Paste.cpp:141-152 | the samples are the seven by seven points a sixth of the sides apart, turned with the footprint |
| Terrain.SeenIff | src/Paste.cpp:141-166 | a height is seen exactly when the ground of a sample lies at it, no more than 20000 below or 3000 above the start |
| Terrain.FindLowestPiece | src/Paste.cpp:134-135 | the lowest z among the pieces |
| Terrain.LowestPieceRests | src/Paste.cpp:131-175 | the lowest piece comes to rest at the target height and no piece below it |
| Terrain.TargetIsAmongHeights | src/Paste.cpp:168-173 | the target lies between the extremes; the highest mode buries no sampled point, the lowest leaves no gap |
| Terrain.MovedExcess | src/Paste.cpp:141-166 | moving the traces exchanges the heights they lose for those they gain |
| Terrain.AdjustTwiceIff | src/Paste.cpp:123-176 | exactly when adjusting an adjusted origin changes nothing, for each ground mode |
| Terrain.AdjustIsIdempotent | src/Paste.cpp:123-176 | while the second traces reach the same samples, adjusting again changes nothing |
| Terrain.SpireMovesAgain | src/Paste.cpp:141-175 | an input on which adjusting twice is not adjusting once: a spire the second traces no longer reach |
| Preview.Footprint | src/Preview.cpp:155-173 | the box covers the four turned corners and touches one on every side that is not at the sentinel |
| Preview.PiecesInFootprint | src/Preview.cpp:155-173 | whatever the turn, every piece inside the extent is inside that box |
| Preview.XorShifted | src/Preview.cpp:240-243 | exclusive or with a shifted number leaves the low bits of the other operand, negatives included |
| Preview.KeyIs | src/Preview.cpp:240-243 | the key is one coordinate times 2^21, crossed with the other |
| Preview.ColumnOfIff | src/Preview.cpp:240-243 | a column holds the positions nearest to its whole coordinates, halves away from zero |
| Preview.KeysCollideIff | src/Preview.cpp:240-243 | exactly when two columns share a key |
| Preview.KeyIsInjective | src/Preview.cpp:240-243 | no two columns share a key for -2^20 <= y < 2^20 |
| Preview.WindowIsSharp | src/Preview.cpp:240-243 | one step outside that window two columns do |
| Preview.CacheStep | src/Preview.cpp:252-262 | one piece adds at most its own key to the cache, at its first hit, and the cache stays exact |
| Preview.CheckBurial | src/Preview.cpp:234-270 | count, worst depth and columns, each piece judged by the first hit under its key |
| Preview.CachedIsDirect | src/Preview.cpp:234-270 | in the window, on ground constant on columns, the same count, worst depth and number of distinct columns as direct sampling |
| Preview.KeysCountColumns | src/Preview.cpp:252-262 | there are as many cached keys as distinct columns hit |
| Preview.DirectBurialCounts | src/Preview.cpp:264-269 | direct sampling counts exactly the positions below ground |
| Preview.DirectBurialFindsWorst | src/Preview.cpp:264-269 | and finds the greatest depth of all |
| Preview.BurialIsExact | src/Preview.cpp:234-270 | for a build in the window on ground constant on columns: the number of pieces that belong below the ground at their own place, and the greatest depth among them |
| Pending.Previews.ClearPreview | src/Preview.cpp:114-138 | only the admin's own structure markers go, all of them in reach do, and only that preview is forgotten |
| Pending.ResolveMarkerClass | src/Preview.cpp:27-48 | the first class that loads, among the two candidates and then the build's own |
| Pending.MarkerSpotIs | src/Preview.cpp:302-325 | where each marker goes: over its turned corner, on the ground there or at the origin's height |
| Pending.Previews.DropMarkers | src/Preview.cpp:302-325 | a new actor over each corner that could be spawned, on the ground there or at the origin's height, and nothing else changed |
| Pending.Previews.ShowPreview | src/Preview.cpp:302-329 | refusal leaves everything alone; else the old preview is cleared, the new one stored, and other admins' kept |
| Pending.Previews.ConfirmPreview | src/Preview.cpp:331-345 | hands back exactly what was previewed, once |
| Pending.Previews.ShowThenConfirm | src/Preview.cpp:302-345 | the world is as before if and only if every corner that got a marker is one the clearing search covers, by marker class and spot |
| Pending.RestoredIffSearched | src/Preview.cpp:119-137 | the same about the worlds before, between and after |
| Pending.WithinSearchIff | src/Preview.cpp:119-134 | a marker is within the search exactly when STRUCTURES lists its class and the corner's distance and the marker's height stay within 100000 units, whatever the turn |
| Pending.FarMarkerStays | src/Preview.cpp:127-134 | any corner more than 100000 units out keeps its marker, whatever the turn and the ground there |
| Pending.CoreMarkersStay | src/Preview.cpp:40-46 | with a marker class that STRUCTURES does not list, clearing the preview takes away no marker at all |
| StdAlgorithms.RemoveAliased | sdk/Private/Commands.h:90 | what the compaction keeps when the compared value is read through the slot it overwrites |
| StdAlgorithms.RemovesOneIff | sdk/Private/Commands.h:90 | exactly that slot goes if and only if the next element differs and does not occur again |
| StdAlgorithms.DistinctRemovesOne | sdk/Private/Commands.h:82-90 | with pairwise distinct elements exactly that slot goes |
| Commands.Registry.AddCommand | sdk/Private/Commands.cpp:7-41 | the name's queue grows by the callback, every other queue stays |
| Commands.Registry.RemoveCommand | sdk/Private/Commands.h:79-96 | the first entry with the name goes, the others keep their order: one queue loses its head, every other stays |
| Commands.Registry.CheckCommands | sdk/Private/Commands.h:98-122 | runs the head of the queue of the message's first word, or nothing |
| Commands.FirstWordIs | sdk/Private/Commands.h:101-108 | there is a first word unless the message is all spaces, and it is what stands between the leading spaces and the next one |
| Commands.FirstWordFound | sdk/Private/Commands.h:101-108 | whatever stands there is the first word |
| Commands.SameNameIff | sdk/Private/Commands.h:113 | names are the same exactly when they agree letter by letter up to the case of ASCII letters |
| Commands.RemovalPopsOneQueue | sdk/Private/Commands.h:79-96 | the same about the lists before and after |
| Commands.TwiceRegisteredGoesTwice | sdk/Private/Commands.h:90 | one object listed twice would not be removed exactly once |
| Hooks.OrderIsReversed | sdk/Public/IHooks.h:12-18 | the order of a call is the reverse of the order of hooking, with the original last |
| Hooks.CallRunsNewestFirst | sdk/Private/Hooks.cpp:27-63 | a call runs all detours of a chain in that order and the original once |
| Hooks.OriginalReachesNextOlder | sdk/Private/Hooks.cpp:59-61 | a hook's original pointer reaches exactly the older hooks and then the original |
| Hooks.RehookNeverReturns | sdk/Private/Hooks.cpp:27-61 | hooking with a detour already live on the function makes every call run for ever |
| Hooks.SharedCallEndsInName | sdk/Private/Hooks.cpp:27-61 | hooking with a detour live on another function makes every call of that one which returns end in the original of the newly hooked one |
| Hooks.SharedDetourMisleads | sdk/Private/Hooks.cpp:27-61 | the smallest such input: two functions, one detour, and the first one's original never runs |
| Hooks.ValidFollowsOrder | sdk/Public/IHooks.h:12-18 | in a valid state a call of every named function follows the documented order |
| Hooks.LiveDetourBreaksOrder | sdk/Private/Hooks.cpp:27-61 | a live detour, hooked once more on any function, breaks the order of some function |
| Hooks.HookKeepsOrderIff | sdk/Private/Hooks.cpp:18-64 | setting a hook keeps the documented order of all functions if and only if its detour is live on none of them |
| Hooks.HookKeepsValid | sdk/Private/Hooks.cpp:18-64 | setting a hook keeps every chain, of this function and all others |
| Hooks.DetachRemoves | sdk/Private/Hooks.cpp:102-118 | detaching takes away exactly the chain's patches and trampolines |
| Hooks.DetachKeepsValid | sdk/Private/Hooks.cpp:102-124 | a function with all hooks detached is as if never hooked |
| Hooks.Hooks.SetHook | sdk/Private/Hooks.cpp:18-64 | fails exactly on an unknown function and then changes nothing; else one hook more, all chains kept for a detour not hooked anywhere, and calls in the documented order afterwards if and only if it was not live |
| Hooks.Hooks.DisableHook | sdk/Private/Hooks.cpp:66-133 | fails exactly when the detour is not live; else the live list loses that detour, keeps its order, and all chains are kept |
| Hooks.Hooks.SetAgain | sdk/Private/Hooks.cpp:123-130 | the hooks that are left are live again, in their old order |
| Hooks.Hooks.CallsFollowLive | sdk/Private/Hooks.cpp:18-133 | at any moment a call follows the live hooks in the documented order |
| Hooks.TwoHooksInOrder | sdk/Public/IHooks.h:12-18 | two hooks set on one function, from the start: a call runs the second, the first and the original |
| Timer.OneShotFiresOnce | sdk/Private/Tools/Timer.cpp:77-99 | a one-shot runs exactly once, at the first update at or after its due time |
| Timer.OneShotFiresAt | sdk/Private/Tools/Timer.cpp:77-99 | given the first update at or after the due time, that is when the one-shot runs, and the only time |
| Timer.CounterIsSpent | sdk/Private/Tools/Timer.cpp:85-93 | a counter has gone down by exactly the number of runs, so there are never more than it began with |
| Timer.UnlimitedStays | sdk/Private/Tools/Timer.cpp:85-95 | counter minus one stays minus one |
| Timer.OtherNegativesNeverFire | sdk/Private/Tools/Timer.cpp:89-93 | a counter below minus one never runs and never changes |
| Timer.RunsAreApart | sdk/Private/Tools/Timer.cpp:77-99 | runs are never early and at least an interval apart |
| Timer.RunsWhenDue | sdk/Private/Tools/Timer.cpp:77-99 | with runs left, an update runs the timer if and only if it is due, one interval after the last run |
| Timer.UpdatedKeeps | sdk/Private/Tools/Timer.cpp:73-109 | an update keeps each timer as it would be alone and drops only timers that are over |
| Timer.UpdateIsFaithful | sdk/Private/Tools/Timer.cpp:62-110 | after every update each registration has run exactly as its timer alone would have |
| Timer.RunsFollowList | sdk/Private/Tools/Timer.cpp:73-99 | within one update the callbacks that are due run in the order of the list |
| Timer.Timer.DelayExecute | sdk/Private/Tools/Timer.cpp:23-29 | a one-shot due after the delay |
| Timer.Timer.RecurringExecute | sdk/Private/Tools/Timer.cpp:56-59 | a recurring timer due at once |
| Timer.Timer.Walk | sdk/Private/Tools/Timer.cpp:73-100 | which callbacks run and in what order, how each timer moves on, and when a sweep is asked for |
| Timer.Timer.Update | sdk/Private/Tools/Timer.cpp:62-110 | the list and the runs after an update, keeping every registration faithful |
| Timer.Timer.NothingIsLost | sdk/Private/Tools/Timer.cpp:102-109 | a one-shot is listed until it has run, a counted timer while runs are left, a negative counter for ever |
| Fields.NativeWord.GetNativeBitField | sdk/Public/API/Fields.h:41-49 | the bits of the field moved down, and zeros above them |
| Fields.NativeWord.SetNativeBitField | sdk/Public/API/Fields.h:51-58 | the field takes the value's lowest bits, every other bit stays |
| Fields.ShiftsAreArithmetic | sdk/Public/API/Fields.h:45-57 | the shifts on bits are division and multiplication by powers of two |
| Fields.BitsAreDigits | sdk/Public/API/Fields.h:44-57 | a word's value has its bits for binary digits |
| Fields.ExtractedIsQuotient | sdk/Public/API/Fields.h:44-46 | what is read is word / 2^position mod 2^width |
| Fields.ReplacedAddsDifference | sdk/Public/API/Fields.h:54-57 | a write changes the word's value by the difference of old and new field value at the field's position |
| Fields.GetAfterSet | sdk/Public/API/Fields.h:41-58 | get after set is the value mod 2^width |
| Fields.SetSparesDisjoint | sdk/Public/API/Fields.h:51-58 | a write is invisible to every disjoint field |
| Fields.SparesOnlyDisjoint | sdk/Public/API/Fields.h:51-58 | and only to those |
| Fields.DisjointSetsCommute | sdk/Public/API/Fields.h:51-58 | writes to disjoint fields commute |
| Fields.SetOverwrites | sdk/Public/API/Fields.h:51-58 | the last write counts, and writing back what was read changes nothing |

## Assumptions

- Single-precision rounding, NaN and overflow are not modelled: coordinates, times and yaw are reals,
  the sine and cosine are a point of the unit circle, passed beside the yaw, a square root is passed in with the equation
  it satisfies, and spheres carry the square of their radius.
- Text is abstract: a JSON printer and parser, deflate, inflate and CRC-32 are parameters. Round
  trips assume only that they invert each other on the very document in question.
- The terrain has at most one height at a horizontal position, and a trace finds it when it lies
  between its ends; class loading is a predicate on paths; an octree query returns every readable actor of its group in range, each at most once.
- Detours patches entries and hands out fresh trampolines. Named functions have distinct addresses,
  are not detours themselves, and every detour calls through a slot of its own, once.
- `TickPaste` requires class indices in range, as the unchecked access at src/Paste.cpp:297 does, and
  a running job's actors to exist still when it uses their pointers.

## Left out

- Container items, turret ranges and device state are written and read as part of a blueprint but not
  captured from or replayed into the world (src/Capture.cpp:323-382, src/Paste.cpp:342-393).
- Capture.MakePieces: leaves pieces without items, ranges, ammo and activation, for that reason.
- Capture.Serialise: likewise.
- Capture.CaptureSelection: has no `with_items` and none of its counters; indices are unbounded, and that they fit 32 bits is assumed where a captured build is saved.
- Paste.PasteJob.TickPlacing: replays no items, activation or ranges.
- PastePlugin.ResolveClasses: does not load the item classes, which only that replay uses.
- PastePlugin.Plugin.LoadUndo: refuses a document whose `items` key is an object, whose values the source would walk.
- PastePlugin.SortByHeight: says nothing about the order of pieces at equal height, which the library sort leaves open.
- Terrain.TargetIsAmongHeights: assumes heights within the sentinels of plus and minus 10^9.
- Pending.Previews.ShowPreview: leaves out the report, which counts nearby structures and enemies.
- Fields.NativeWord.GetNativeBitField: does not apply the cast to the caller's type.
- Commands.Registry.CheckCommands: folds ASCII letters only, and hands the callback back rather than calling it.
- Timer.Timer.Update: callbacks do not register timers while the list is walked; detached threads are not modelled.
- Hooks.Hooks.SetHook: transactions of the detour library do not fail, and a slot is not read while it is rebuilt.
- Hooks.Hooks.DisableHook: likewise.
- Gzip.Decompress: deflate, inflate and CRC-32 themselves are parameters.
- Storage.Library.Save: does not cover text that cannot be printed as JSON.
- The 5 by 5 ground grid of the preview and its terrain map: running extremes like those of `Terrain`.
- Selections per admin, scans, diagnostics, chat commands, replies, logging and file paths.
- Registering the timer's own update as a callback, and the snapshots taken before callbacks run
  (sdk/Private/Commands.cpp:91-131).
