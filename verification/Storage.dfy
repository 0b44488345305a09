/** Saves on disk (src/Storage.cpp): a blueprint as gzipped JSON text, and back. */
module Storage {
  import opened Wrappers
  import opened Json
  import opened Model
  import opened Undo
  import Gzip

  datatype LoadError = NoSuchSave | CannotRead | CorruptSave | NotABlueprint | NewerFormat

  datatype SaveError = NoDirectory | CompressionFailed | CannotOpen | WriteFailed | CannotReplace

  /**
   * How the disk answers the steps of a save.  The steps are tested up to `renames`; `landed`, the
   * number of bytes that have reached the temporary file when it is closed, is not.
   */
  datatype Disk = Disk(directory: bool, opens: bool, writes: bool, renames: bool, landed: nat)

  /** What loading a file means; `file` is None when there is no save of that name. */
  function Loaded(files: Files, file: Option<Gzip.Bytes>, opens: bool): Result<Blueprint, LoadError> {
    if file.None? then Err(NoSuchSave)
    else if !opens then Err(CannotRead)
    else
      var raw := Gzip.Unpack(files.codec, file.value);
      if raw.None? then Err(CorruptSave)
      else
        var j := files.parse(raw.value);
        if j.None? then Err(NotABlueprint)
        else
          match ReadBlueprint(j.value, DEFAULT_BLUEPRINT)
          case Err(_) => Err(NotABlueprint)
          case Ok(bp) => if bp.format > FORMAT_VERSION then Err(NewerFormat) else Ok(bp)
  }

  /** The first step of a save that fails. */
  function FirstFailure(disk: Disk, packed: Option<Gzip.Bytes>): Option<SaveError> {
    if !disk.directory then Some(NoDirectory)
    else if packed.None? then Some(CompressionFailed)
    else if !disk.opens then Some(CannotOpen)
    else if !disk.writes then Some(WriteFailed)
    else if !disk.renames then Some(CannotReplace)
    else None
  }

  /** Every tested step succeeds, and the bytes lost when the temporary file is closed go unnoticed. */
  predicate LosesBytes(disk: Disk, packed: Option<Gzip.Bytes>) {
    FirstFailure(disk, packed) == None && packed.Some? && disk.landed < |packed.value|
  }

  /** The library after a save, as the steps leave it. */
  function AfterSave(saves: map<string, Gzip.Bytes>, name: string, packed: Option<Gzip.Bytes>, disk: Disk)
    : map<string, Gzip.Bytes>
  {
    if FirstFailure(disk, packed).Some? || packed.None? then saves
    else saves[name := FirstBytes(packed.value, disk.landed)]
  }

  /** The temporary files: a failed write leaves its part behind, later steps clean up. */
  function AfterTemp(temps: map<string, Gzip.Bytes>, name: string, packed: Option<Gzip.Bytes>, disk: Disk)
    : map<string, Gzip.Bytes>
  {
    match FirstFailure(disk, packed)
    case None | Some(CannotReplace) => temps - {name}
    case Some(WriteFailed) => if packed.Some? then temps[name := FirstBytes(packed.value, disk.landed)] else temps
    case _ => temps
  }

  /** What a save promises: the whole new text when it reports success, and otherwise no change. */
  predicate IsWholeSave(before: map<string, Gzip.Bytes>, after: map<string, Gzip.Bytes>, name: string,
                        packed: Option<Gzip.Bytes>, error: Option<SaveError>)
  {
    if error.Some? then after == before
    else packed.Some? && after == before[name := packed.value]
  }

  /** The promise is kept exactly when no bytes are lost behind a success. */
  lemma SaveIsWholeIff(saves: map<string, Gzip.Bytes>, name: string, packed: Option<Gzip.Bytes>, disk: Disk)
    ensures IsWholeSave(saves, AfterSave(saves, name, packed, disk), name, packed, FirstFailure(disk, packed))
            <==> !LosesBytes(disk, packed)
  {
    var after := AfterSave(saves, name, packed, disk);
    if LosesBytes(disk, packed) {
      assert |after[name]| == disk.landed;
      assert saves[name := packed.value][name] == packed.value;
    }
  }

  /**
   * A disk that is full when the file is closed: the save reports success, the save of that name is
   * replaced by fewer bytes than a gzip member needs, and loading it fails.
   */
  lemma LostSaveIsCorrupt(files: Files, saves: map<string, Gzip.Bytes>, name: string, packed: Option<Gzip.Bytes>,
                          disk: Disk)
    requires LosesBytes(disk, packed) && disk.landed < Gzip.HEADER_SIZE + Gzip.TRAILER_SIZE
    ensures FirstFailure(disk, packed) == None && name in AfterSave(saves, name, packed, disk)
    ensures Loaded(files, Some(AfterSave(saves, name, packed, disk)[name]), true) == Err(CorruptSave)
  {
    assert |AfterSave(saves, name, packed, disk)[name]| == disk.landed;
  }

  class Library {
    const files: Files
    var saves: map<string, Gzip.Bytes>
    var temps: map<string, Gzip.Bytes>   // the temporary files beside them

    constructor (files: Files)
      ensures this.files == files && saves == temps == map[]
    {
      this.files := files;
      saves, temps := map[], map[];
    }

    /**
     * Through a temporary file and a rename.  A step that is seen to fail leaves every save as it
     * was; what the close loses is not seen, and the rename then puts a part in place of the whole.
     */
    method Save(bp: Blueprint, disk: Disk) returns (error: Option<SaveError>)
      modifies this
      ensures exists j :: IsBlueprintJson(j, bp) &&
                var packed := PackedText(files, files.dump(j));
                error == FirstFailure(disk, packed) &&
                saves == AfterSave(old(saves), bp.name, packed, disk) &&
                temps == AfterTemp(old(temps), bp.name, packed, disk) &&
                (IsWholeSave(old(saves), saves, bp.name, packed, error) <==> !LosesBytes(disk, packed))
    {
      hide IsBlueprintJson, Gzip.Print, Gzip.PlainMember, FirstBytes, IsWholeSave, LosesBytes;
      ghost var before, temps0 := saves, temps;
      var doc := BlueprintToJson(bp);
      var ok, packed := Gzip.Compress(files.codec, files.dump(doc), []);
      ghost var whole := PackedText(files, files.dump(doc));
      SaveIsWholeIff(before, bp.name, whole, disk);
      error := None;
      if !disk.directory {
        error := Some(NoDirectory);
      } else if !ok {
        error := Some(CompressionFailed);
      } else if !disk.opens {
        error := Some(CannotOpen);
      } else {
        temps := temps[bp.name := FirstBytes(packed, disk.landed)];
        if !disk.writes {
          error := Some(WriteFailed);
        } else if disk.renames {
          saves, temps := saves[bp.name := temps[bp.name]], temps - {bp.name};
        } else {
          temps := temps - {bp.name};
          error := Some(CannotReplace);
        }
      }
      assert IsBlueprintJson(doc, bp) && error == FirstFailure(disk, whole) &&
             saves == AfterSave(before, bp.name, whole, disk) && temps == AfterTemp(temps0, bp.name, whole, disk);
    }

    method Load(name: string, opens: bool) returns (r: Result<Blueprint, LoadError>)
      ensures r == Loaded(files, if name in saves then Some(saves[name]) else None, opens)
    {
      if name !in saves { return Err(NoSuchSave); }
      if !opens { return Err(CannotRead); }
      var ok, raw := Gzip.Decompress(files.codec, saves[name], []);
      if !ok { return Err(CorruptSave); }
      var j := files.parse(raw);
      if j.None? { return Err(NotABlueprint); }
      var bp := ReadBlueprint(j.value, DEFAULT_BLUEPRINT);
      if bp.Err? { return Err(NotABlueprint); }
      if bp.value.format > FORMAT_VERSION { return Err(NewerFormat); }
      return Ok(bp.value);
    }
  }

  /** A save written by this version loads as the same build, normalised; a newer one is refused. */
  lemma SaveThenLoad(files: Files, bp: Blueprint, j: Json)
    requires TypedBlueprint(bp) && IsBlueprintJson(j, bp)
    requires files.parse(files.dump(j)) == Some(j) && Gzip.Lossless(files.codec, files.dump(j))
    requires PackedText(files, files.dump(j)).Some?
    ensures Loaded(files, PackedText(files, files.dump(j)), true)
            == if bp.format > FORMAT_VERSION then Err(NewerFormat) else Ok(NormalBlueprint(bp))
  {
    hide ReadBlueprint, IsBlueprintJson, TypedBlueprint, Gzip.Unpack, Gzip.Print, Gzip.PlainMember;
    Gzip.UnpackUndoesCompress(files.codec, files.dump(j));
    BlueprintRoundTrip(j, bp);
  }
}
