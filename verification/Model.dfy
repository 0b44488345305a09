/**
 * The saved build (src/Model.h): its data and its JSON form.  `to_json` leaves default values
 * out and `from_json` puts them back; a format-1 piece carries one parent index instead of a
 * list of links.
 */
module Model {
  import opened Wrappers
  import opened Json

  const FORMAT_VERSION := 3

  datatype ItemEntry = ItemEntry(
    cls: int, quantity: int, durability: real, skillBonus: real,
    blueprint: bool, stats: seq<int>, name: string)

  datatype Piece = Piece(
    classIndex: int,
    x: real, y: real, z: real,
    pitch: real, yaw: real, roll: real,
    links: seq<int>,
    items: seq<ItemEntry>,
    ranges: seq<real>,
    rangeSetting: int,
    ammo: int,
    activated: int,
    floor: int)

  datatype Blueprint = Blueprint(
    format: int,
    name: string, createdUtc: string, createdBy: string, sourceMap: string,
    originX: real, originY: real, originZ: real,
    sizeX: real, sizeY: real, sizeZ: real,
    classes: seq<string>,
    itemClasses: seq<string>,
    pieces: seq<Piece>)

  const DEFAULT_ITEM := ItemEntry(0, 1, 0.0, 0.0, false, [], "")

  const DEFAULT_PIECE := Piece(0, 0.0, 0.0, 0.0, 0.0, 0.0, 0.0, [], [], [], -1, -1, -1, -1)

  const DEFAULT_BLUEPRINT :=
    Blueprint(FORMAT_VERSION, "", "", "", "", 0.0, 0.0, 0.0, 0.0, 0.0, 0.0, [], [], [])

  // ----- the C++ field types -----

  predicate TypedItem(it: ItemEntry) {
    Fits(INT32, it.cls) && Fits(INT32, it.quantity) &&
    forall i :: 0 <= i < |it.stats| ==> Fits(UINT16, it.stats[i])
  }

  predicate TypedPiece(p: Piece) {
    Fits(INT32, p.classIndex) && Fits(INT32, p.rangeSetting) && Fits(INT32, p.ammo) &&
    Fits(INT32, p.floor) && Fits(INT8, p.activated) &&
    (forall i :: 0 <= i < |p.links| ==> Fits(INT32, p.links[i])) &&
    (forall i :: 0 <= i < |p.items| ==> TypedItem(p.items[i]))
  }

  predicate TypedBlueprint(b: Blueprint) {
    Fits(INT32, b.format) &&
    forall i :: 0 <= i < |b.pieces| ==> TypedPiece(b.pieces[i])
  }

  // ----- what a document says -----

  /** The key is present exactly when `present`, and then holds `value`. */
  predicate Holds(j: Json, key: Key, present: bool, value: Json) {
    Contains(j, key) == present && (present ==> j.fields[key] == value)
  }

  predicate IsItemJson(j: Json, it: ItemEntry) {
    j.JObj? && j.fields.Keys <= {C, Q, D, K, BP, S, N} &&
    Holds(j, C, true, JInt(it.cls)) &&
    Holds(j, Q, true, JInt(it.quantity)) &&
    Holds(j, D, it.durability != 0.0, JNum(it.durability)) &&
    Holds(j, K, it.skillBonus != 0.0, JNum(it.skillBonus)) &&
    Holds(j, BP, it.blueprint, JBool(true)) &&
    Holds(j, S, it.stats != [], Ints(it.stats)) &&
    Holds(j, N, it.name != "", JStr(it.name))
  }

  predicate IsItemsJson(j: Json, items: seq<ItemEntry>) {
    j.JArr? && |j.elems| == |items| &&
    forall i :: 0 <= i < |items| ==> IsItemJson(j.elems[i], items[i])
  }

  predicate IsPieceJson(j: Json, p: Piece) {
    j.JObj? && j.fields.Keys <= {C, P, R, L, FL, I, TR, RS, AM, A} &&
    Holds(j, C, true, JInt(p.classIndex)) &&
    Holds(j, P, true, Triple(p.x, p.y, p.z)) &&
    Holds(j, R, true, Triple(p.pitch, p.yaw, p.roll)) &&
    Holds(j, L, p.links != [], Ints(p.links)) &&
    Holds(j, FL, p.floor >= 0, JInt(p.floor)) &&
    Contains(j, I) == (p.items != []) && (p.items != [] ==> IsItemsJson(j.fields[I], p.items)) &&
    Holds(j, TR, p.ranges != [], Reals(p.ranges)) &&
    Holds(j, RS, p.rangeSetting >= 0, JInt(p.rangeSetting)) &&
    Holds(j, AM, p.ammo >= 0, JInt(p.ammo)) &&
    Holds(j, A, p.activated >= 0, JInt(p.activated))
  }

  predicate IsPiecesJson(j: Json, pieces: seq<Piece>) {
    j.JArr? && |j.elems| == |pieces| &&
    forall i :: 0 <= i < |pieces| ==> IsPieceJson(j.elems[i], pieces[i])
  }

  predicate IsBlueprintJson(j: Json, b: Blueprint) {
    j.JObj? &&
    j.fields.Keys == {FORMAT, NAME, CREATED_UTC, CREATED_BY, SOURCE_MAP, ORIGIN, SIZE,
                      CLASSES, ITEM_CLASSES, PIECES} &&
    j.fields[FORMAT] == JInt(b.format) &&
    j.fields[NAME] == JStr(b.name) &&
    j.fields[CREATED_UTC] == JStr(b.createdUtc) &&
    j.fields[CREATED_BY] == JStr(b.createdBy) &&
    j.fields[SOURCE_MAP] == JStr(b.sourceMap) &&
    j.fields[ORIGIN] == Triple(b.originX, b.originY, b.originZ) &&
    j.fields[SIZE] == Triple(b.sizeX, b.sizeY, b.sizeZ) &&
    j.fields[CLASSES] == Strings(b.classes) &&
    j.fields[ITEM_CLASSES] == Strings(b.itemClasses) &&
    IsPiecesJson(j.fields[PIECES], b.pieces)
  }

  // ----- writing, key by key -----

  /** `j[key] = value` on an object. */
  function Set(j: Json, key: Key, value: Json): Json
    requires j.JObj?
  {
    JObj(j.fields[key := value])
  }

  method ItemToJson(it: ItemEntry) returns (j: Json)
    ensures IsItemJson(j, it)
  {
    j := JObj(map[C := JInt(it.cls), Q := JInt(it.quantity)]);
    if it.durability != 0.0 { j := Set(j, D, JNum(it.durability)); }
    if it.skillBonus != 0.0 { j := Set(j, K, JNum(it.skillBonus)); }
    if it.blueprint { j := Set(j, BP, JBool(true)); }
    if it.stats != [] { j := Set(j, S, Ints(it.stats)); }
    if it.name != "" { j := Set(j, N, JStr(it.name)); }
  }

  method ItemsToJson(items: seq<ItemEntry>) returns (j: Json)
    ensures IsItemsJson(j, items)
  {
    var elems := [];
    for i := 0 to |items|
      invariant |elems| == i && forall k :: 0 <= k < i ==> IsItemJson(elems[k], items[k])
    {
      var e := ItemToJson(items[i]);
      elems := elems + [e];
    }
    j := JArr(elems);
  }

  method PieceToJson(p: Piece) returns (j: Json)
    ensures IsPieceJson(j, p)
  {
    j := WriteStructure(p);
    j := WriteDeviceState(j, p);
  }

  /** The first six keys of a piece. */
  method WriteStructure(p: Piece) returns (j: Json)
    ensures j.JObj? && j.fields.Keys <= {C, P, R, L, FL, I}
    ensures Holds(j, C, true, JInt(p.classIndex))
    ensures Holds(j, P, true, Triple(p.x, p.y, p.z))
    ensures Holds(j, R, true, Triple(p.pitch, p.yaw, p.roll))
    ensures Holds(j, L, p.links != [], Ints(p.links))
    ensures Holds(j, FL, p.floor >= 0, JInt(p.floor))
    ensures Contains(j, I) == (p.items != []) && (p.items != [] ==> IsItemsJson(j.fields[I], p.items))
  {
    j := JObj(map[C := JInt(p.classIndex),
                  P := Triple(p.x, p.y, p.z),
                  R := Triple(p.pitch, p.yaw, p.roll)]);
    if p.links != [] { j := Set(j, L, Ints(p.links)); }
    if p.floor >= 0 { j := Set(j, FL, JInt(p.floor)); }
    if p.items != [] {
      var items := ItemsToJson(p.items);
      j := Set(j, I, items);
    }
  }

  /** The last four keys of a piece; what was written before stays. */
  method WriteDeviceState(j0: Json, p: Piece) returns (j: Json)
    requires j0.JObj? && j0.fields.Keys !! {TR, RS, AM, A}
    ensures j.JObj? && j.fields.Keys <= j0.fields.Keys + {TR, RS, AM, A}
    ensures forall k :: k in j0.fields ==> k in j.fields && j.fields[k] == j0.fields[k]
    ensures Holds(j, TR, p.ranges != [], Reals(p.ranges))
    ensures Holds(j, RS, p.rangeSetting >= 0, JInt(p.rangeSetting))
    ensures Holds(j, AM, p.ammo >= 0, JInt(p.ammo))
    ensures Holds(j, A, p.activated >= 0, JInt(p.activated))
  {
    j := j0;
    if p.ranges != [] { j := Set(j, TR, Reals(p.ranges)); }
    if p.rangeSetting >= 0 { j := Set(j, RS, JInt(p.rangeSetting)); }
    if p.ammo >= 0 { j := Set(j, AM, JInt(p.ammo)); }
    if p.activated >= 0 { j := Set(j, A, JInt(p.activated)); }
  }

  method PiecesToJson(pieces: seq<Piece>) returns (j: Json)
    ensures IsPiecesJson(j, pieces)
  {
    var elems := [];
    for i := 0 to |pieces|
      invariant |elems| == i && forall k :: 0 <= k < i ==> IsPieceJson(elems[k], pieces[k])
    {
      var e := PieceToJson(pieces[i]);
      elems := elems + [e];
    }
    j := JArr(elems);
  }

  method BlueprintToJson(b: Blueprint) returns (j: Json)
    ensures IsBlueprintJson(j, b)
  {
    var pieces := PiecesToJson(b.pieces);
    j := JObj(map[FORMAT := JInt(b.format),
                  NAME := JStr(b.name),
                  CREATED_UTC := JStr(b.createdUtc),
                  CREATED_BY := JStr(b.createdBy),
                  SOURCE_MAP := JStr(b.sourceMap),
                  ORIGIN := Triple(b.originX, b.originY, b.originZ),
                  SIZE := Triple(b.sizeX, b.sizeY, b.sizeZ),
                  CLASSES := Strings(b.classes),
                  ITEM_CLASSES := Strings(b.itemClasses),
                  PIECES := pieces]);
  }

  // ----- what reading a document yields -----

  function IntOr(j: Json, key: Key, t: IntType, default: int): Result<int, JsonError> {
    if Contains(j, key) then AsInt(j.fields[key], t) else Ok(default)
  }

  function StringOr(j: Json, key: Key): Result<string, JsonError> {
    var s :- AtOr(j, key, JStr(""));
    AsString(s)
  }

  function ReadItem(j: Json, into: ItemEntry): Result<ItemEntry, JsonError> {
    var c :- At(j, C);
    var cls :- AsInt(c, INT32);
    var q :- AtOr(j, Q, JInt(1));
    var quantity :- AsInt(q, INT32);
    var d :- AtOr(j, D, JNum(0.0));
    var durability :- AsReal(d);
    var k :- AtOr(j, K, JNum(0.0));
    var skillBonus :- AsReal(k);
    var b :- AtOr(j, BP, JBool(false));
    var blueprint :- AsBool(b);
    var stats :- if Contains(j, S) then ReadInts(j.fields[S], UINT16) else Ok(into.stats);
    var name :- StringOr(j, N);
    Ok(ItemEntry(cls, quantity, durability, skillBonus, blueprint, stats, name))
  }

  function ReadItems(j: Json): Result<seq<ItemEntry>, JsonError> {
    ReadVector(j, e => ReadItem(e, DEFAULT_ITEM))
  }

  /** The links of a piece: the stored list, else the parent a format-1 save may carry. */
  function ReadLinks(j: Json, into: seq<int>): Result<seq<int>, JsonError> {
    if Contains(j, L) then ReadInts(j.fields[L], INT32)
    else if Contains(j, F) then
      var parent :- AsInt(j.fields[F], INT32);
      Ok(if parent >= 0 then into + [parent] else into)
    else Ok(into)
  }

  function ReadPiece(j: Json, into: Piece): Result<Piece, JsonError> {
    var c :- At(j, C);
    var cls :- AsInt(c, INT32);
    var p :- At(j, P);
    var pos :- ReadTriple(p);
    var r :- At(j, R);
    var rot :- ReadTriple(r);
    var floor :- IntOr(j, FL, INT32, -1);
    var items :- if Contains(j, I) then ReadItems(j.fields[I]) else Ok(into.items);
    var ranges :- if Contains(j, TR) then ReadReals(j.fields[TR]) else Ok(into.ranges);
    var rangeSetting :- IntOr(j, RS, INT32, -1);
    var ammo :- IntOr(j, AM, INT32, -1);
    var activated :- IntOr(j, A, INT32, -1);
    var links :- ReadLinks(j, into.links);
    Ok(Piece(cls, pos.0, pos.1, pos.2, rot.0, rot.1, rot.2, links, items, ranges,
             rangeSetting, ammo, Wrap(INT8, activated), floor))
  }

  function ReadPieces(j: Json): Result<seq<Piece>, JsonError> {
    ReadVector(j, e => ReadPiece(e, DEFAULT_PIECE))
  }

  function ReadBlueprint(j: Json, into: Blueprint): Result<Blueprint, JsonError> {
    var f :- At(j, FORMAT);
    var format :- AsInt(f, INT32);
    var n :- At(j, NAME);
    var name :- AsString(n);
    var utc :- StringOr(j, CREATED_UTC);
    var author :- StringOr(j, CREATED_BY);
    var src :- StringOr(j, SOURCE_MAP);
    var o :- At(j, ORIGIN);
    var origin :- ReadTriple(o);
    var s :- At(j, SIZE);
    var size :- ReadTriple(s);
    var cs :- At(j, CLASSES);
    var classes :- ReadStrings(cs);
    var itemClasses :- if Contains(j, ITEM_CLASSES)
                       then ReadStrings(j.fields[ITEM_CLASSES]) else Ok(into.itemClasses);
    var ps :- At(j, PIECES);
    var pieces :- ReadPieces(ps);
    Ok(Blueprint(format, name, utc, author, src, origin.0, origin.1, origin.2,
                 size.0, size.1, size.2, classes, itemClasses, pieces))
  }

  // ----- reading, field by field, as the source assigns them -----

  method PieceFromJson(j: Json, into: Piece) returns (r: Result<Piece, JsonError>)
    ensures r == ReadPiece(j, into)
  {
    var p := into;
    var c :- At(j, C);
    var cls :- AsInt(c, INT32);
    p := p.(classIndex := cls);
    var pos :- At(j, P);
    var px :- NthReal(pos, 0);
    p := p.(x := px);
    var py :- NthReal(pos, 1);
    p := p.(y := py);
    var pz :- NthReal(pos, 2);
    p := p.(z := pz);
    var rot :- At(j, R);
    var rp :- NthReal(rot, 0);
    p := p.(pitch := rp);
    var ry :- NthReal(rot, 1);
    p := p.(yaw := ry);
    var rr :- NthReal(rot, 2);
    p := p.(roll := rr);
    var fl :- IntOr(j, FL, INT32, -1);
    p := p.(floor := fl);
    if Contains(j, I) {
      var items :- ReadItems(j.fields[I]);
      p := p.(items := items);
    }
    if Contains(j, TR) {
      var ranges :- ReadReals(j.fields[TR]);
      p := p.(ranges := ranges);
    }
    var rs :- IntOr(j, RS, INT32, -1);
    p := p.(rangeSetting := rs);
    var am :- IntOr(j, AM, INT32, -1);
    p := p.(ammo := am);
    var a :- IntOr(j, A, INT32, -1);
    p := p.(activated := Wrap(INT8, a));
    if Contains(j, L) {
      var links :- ReadInts(j.fields[L], INT32);
      p := p.(links := links);
    } else if Contains(j, F) {
      var parent :- AsInt(j.fields[F], INT32);
      if parent >= 0 { p := p.(links := p.links + [parent]); }
    }
    return Ok(p);
  }

  // ----- round trips -----

  function AtLeastMinusOne(n: int): int {
    if n >= 0 then n else -1
  }

  /** What survives a save: every negative device value becomes the "unknown" value -1. */
  function NormalPiece(p: Piece): Piece {
    p.(floor := AtLeastMinusOne(p.floor),
       rangeSetting := AtLeastMinusOne(p.rangeSetting),
       ammo := AtLeastMinusOne(p.ammo),
       activated := AtLeastMinusOne(p.activated))
  }

  function NormalBlueprint(b: Blueprint): Blueprint {
    b.(pieces := seq(|b.pieces|, i requires 0 <= i < |b.pieces| => NormalPiece(b.pieces[i])))
  }

  lemma ItemRoundTrip(j: Json, it: ItemEntry)
    requires IsItemJson(j, it) && TypedItem(it)
    ensures ReadItem(j, DEFAULT_ITEM) == Ok(it)
  {
    IntsRoundTrip(it.stats, UINT16);
  }

  lemma ItemsRoundTrip(j: Json, items: seq<ItemEntry>)
    requires IsItemsJson(j, items)
    requires forall i :: 0 <= i < |items| ==> TypedItem(items[i])
    ensures ReadItems(j) == Ok(items)
  {
    var read := (e: Json) => ReadItem(e, DEFAULT_ITEM);
    forall i | 0 <= i < |items|
      ensures read(j.elems[i]) == Ok(items[i])
    {
      ItemRoundTrip(j.elems[i], items[i]);
    }
    ReadAllInverts(j.elems, read, items);
  }

  lemma TripleRoundTrip(a: real, b: real, c: real)
    ensures ReadTriple(Triple(a, b, c)) == Ok((a, b, c))
  {
  }

  /** A piece read back into a fresh piece is the piece that was written, normalised. */
  lemma PieceRoundTrip(j: Json, p: Piece)
    requires IsPieceJson(j, p) && TypedPiece(p)
    ensures ReadPiece(j, DEFAULT_PIECE) == Ok(NormalPiece(p))
  {
    IntsRoundTrip(p.links, INT32);
    RealsRoundTrip(p.ranges);
    if p.items != [] { ItemsRoundTrip(j.fields[I], p.items); }
    TripleRoundTrip(p.x, p.y, p.z);
    TripleRoundTrip(p.pitch, p.yaw, p.roll);
  }

  lemma PiecesRoundTrip(j: Json, pieces: seq<Piece>, normal: seq<Piece>)
    requires IsPiecesJson(j, pieces) && |normal| == |pieces|
    requires forall i :: 0 <= i < |pieces| ==> TypedPiece(pieces[i]) && normal[i] == NormalPiece(pieces[i])
    ensures ReadPieces(j) == Ok(normal)
  {
    var read := (e: Json) => ReadPiece(e, DEFAULT_PIECE);
    forall i | 0 <= i < |pieces|
      ensures read(j.elems[i]) == Ok(normal[i])
    {
      PieceRoundTrip(j.elems[i], pieces[i]);
    }
    ReadAllInverts(j.elems, read, normal);
  }

  /** Saving and loading a build gives it back with every nested piece normalised. */
  lemma BlueprintRoundTrip(j: Json, b: Blueprint)
    requires IsBlueprintJson(j, b) && TypedBlueprint(b)
    ensures ReadBlueprint(j, DEFAULT_BLUEPRINT) == Ok(NormalBlueprint(b))
  {
    hide IsPiecesJson, ReadPieces, Triple, ReadTriple, Strings, ReadStrings, TypedPiece;
    StringsRoundTrip(b.classes);
    StringsRoundTrip(b.itemClasses);
    PiecesRoundTrip(j.fields[PIECES], b.pieces, NormalBlueprint(b).pieces);
    TripleRoundTrip(b.originX, b.originY, b.originZ);
    TripleRoundTrip(b.sizeX, b.sizeY, b.sizeZ);
  }

  // ----- documents the plugin did not write itself -----

  lemma ReadItemTyped(j: Json)
    requires ReadItem(j, DEFAULT_ITEM).Ok?
    ensures TypedItem(ReadItem(j, DEFAULT_ITEM).value)
  {
    if Contains(j, S) { ReadIntsFit(j.fields[S], UINT16); }
  }

  lemma ReadPieceTyped(j: Json)
    requires ReadPiece(j, DEFAULT_PIECE).Ok?
    ensures TypedPiece(ReadPiece(j, DEFAULT_PIECE).value)
  {
    hide ReadItem, ReadReals, ReadTriple, TypedItem;
    if Contains(j, L) { ReadIntsFit(j.fields[L], INT32); }
    if Contains(j, I) {
      var es := j.fields[I].elems;
      var read := (e: Json) => ReadItem(e, DEFAULT_ITEM);
      ReadAllElements(es, read);
      var items := ReadItems(j.fields[I]).value;
      forall i | 0 <= i < |items|
        ensures TypedItem(items[i])
      {
        ReadItemTyped(es[i]);
      }
    }
  }

  lemma ReadBlueprintTyped(j: Json)
    requires ReadBlueprint(j, DEFAULT_BLUEPRINT).Ok?
    ensures TypedBlueprint(ReadBlueprint(j, DEFAULT_BLUEPRINT).value)
  {
    var es := j.fields[PIECES].elems;
    var read := (e: Json) => ReadPiece(e, DEFAULT_PIECE);
    ReadAllElements(es, read);
    var pieces := ReadPieces(j.fields[PIECES]).value;
    forall i | 0 <= i < |pieces|
      ensures TypedPiece(pieces[i])
    {
      ReadPieceTyped(es[i]);
    }
  }

  lemma NormalIsStable(b: Blueprint)
    requires TypedBlueprint(b)
    ensures TypedBlueprint(NormalBlueprint(b))
    ensures NormalBlueprint(NormalBlueprint(b)) == NormalBlueprint(b)
  {
    var n := NormalBlueprint(b);
    assert NormalBlueprint(n).pieces == n.pieces;
  }

  /**
   * Load, save, load, for any document at all that loads, whatever its format: the second load
   * gives the normalised first one, and saving that and loading again changes nothing more.
   */
  lemma ResaveIsFixedPoint(j1: Json, b: Blueprint, j2: Json, j3: Json)
    requires ReadBlueprint(j1, DEFAULT_BLUEPRINT) == Ok(b)
    requires IsBlueprintJson(j2, b) && IsBlueprintJson(j3, NormalBlueprint(b))
    ensures ReadBlueprint(j2, DEFAULT_BLUEPRINT) == Ok(NormalBlueprint(b))
    ensures ReadBlueprint(j3, DEFAULT_BLUEPRINT) == Ok(NormalBlueprint(b))
  {
    ReadBlueprintTyped(j1);
    BlueprintRoundTrip(j2, b);
    NormalIsStable(b);
    BlueprintRoundTrip(j3, NormalBlueprint(b));
  }

  /** A format-1 piece: one parent index, none of the keys later formats added. */
  predicate IsFormat1Piece(j: Json, parent: int) {
    j.JObj? && Holds(j, F, true, JInt(parent)) && Fits(INT32, parent) &&
    !Contains(j, L) && !Contains(j, FL) && !Contains(j, I) && !Contains(j, TR) &&
    !Contains(j, RS) && !Contains(j, AM) && !Contains(j, A)
  }

  lemma Format1Reads(j: Json, parent: int, p: Piece)
    requires IsFormat1Piece(j, parent)
    requires ReadPiece(j, DEFAULT_PIECE) == Ok(p)
    ensures p.links == (if parent >= 0 then [parent] else [])
    ensures p == NormalPiece(p)
  {
  }

  lemma SavedLinkKeys(p: Piece, saved: Json)
    requires IsPieceJson(saved, p)
    ensures (Contains(saved, L) <==> p.links != []) && !Contains(saved, F)
  {
  }

  /**
   * Loading a format-1 piece promotes its parent to a one-entry list; saving the result writes
   * that list in place of the parent, and loading it again gives exactly the same piece.
   */
  lemma Format1Migrates(j: Json, parent: int, p: Piece, saved: Json)
    requires IsFormat1Piece(j, parent)
    requires ReadPiece(j, DEFAULT_PIECE) == Ok(p)
    requires IsPieceJson(saved, p)
    ensures p.links == (if parent >= 0 then [parent] else [])
    ensures Contains(saved, L) <==> parent >= 0
    ensures !Contains(saved, F)
    ensures ReadPiece(saved, DEFAULT_PIECE) == Ok(p)
  {
    Format1Reads(j, parent, p);
    ReadPieceTyped(j);
    SavedLinkKeys(p, saved);
    PieceRoundTrip(saved, p);
  }
}
