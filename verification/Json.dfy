/**
 * The JSON values the plugin reads and writes, with the conversions nlohmann::json applies:
 * a number may be read as any numeric type, a boolean counts as 0 or 1 there, and a type
 * mismatch or a missing key is an error.  JSON text syntax is not part of this module.
 */
module Json {
  import opened Arithmetic
  import opened Wrappers

  /** The keys the plugin uses, one constructor per distinct key text, and any other key. */
  datatype Key =
    | C | Q | D | K | BP | S | N
    | P | R | L | F | FL | I | TR | RS | AM | A
    | FORMAT | NAME | CREATED_UTC | CREATED_BY | SOURCE_MAP | ORIGIN | SIZE
    | CLASSES | ITEM_CLASSES | PIECES | LO | HI | ITEMS
    | OTHER(text: string)

  datatype Json =
    | JNull
    | JBool(b: bool)
    | JInt(i: int)
    | JNum(r: real)
    | JStr(s: string)
    | JArr(elems: seq<Json>)
    | JObj(fields: map<Key, Json>)

  datatype JsonError = TypeError | MissingKey | OutOfBounds

  /** The stored integer widths. */
  datatype IntType = INT8 | INT32 | UINT16

  function Low(t: IntType): int {
    match t
    case INT8 => -0x80
    case INT32 => -0x8000_0000
    case UINT16 => 0
  }

  function Span(t: IntType): int {
    match t
    case INT8 => 0x100
    case INT32 => 0x1_0000_0000
    case UINT16 => 0x1_0000
  }

  predicate Fits(t: IntType, n: int) {
    Low(t) <= n < Low(t) + Span(t)
  }

  /** The value an integer keeps when it is cast to the width. */
  function Wrap(t: IntType, n: int): (r: int)
    ensures Fits(t, r)
    ensures Fits(t, n) ==> r == n
  {
    (n - Low(t)) % Span(t) + Low(t)
  }

  /** That is the one value of the width congruent to the number. */
  lemma WrapIsTheCongruent(t: IntType, n: int, r: int)
    ensures r == Wrap(t, n) <==> Fits(t, r) && (n - r) % Span(t) == 0
  {
    if Fits(t, r) { RemainderIsUnique(n - Low(t), Span(t), r - Low(t)); }
  }

  function Truncate(r: real): int {
    if r >= 0.0 then r.Floor else -((-r).Floor)
  }

  function AsInt(j: Json, t: IntType): Result<int, JsonError> {
    match j
    case JInt(i) => Ok(Wrap(t, i))
    case JNum(r) => Ok(Wrap(t, Truncate(r)))
    case JBool(b) => Ok(if b then 1 else 0)
    case _ => Err(TypeError)
  }

  function AsReal(j: Json): Result<real, JsonError> {
    match j
    case JInt(i) => Ok(i as real)
    case JNum(r) => Ok(r)
    case JBool(b) => Ok(if b then 1.0 else 0.0)
    case _ => Err(TypeError)
  }

  function AsBool(j: Json): Result<bool, JsonError> {
    match j
    case JBool(b) => Ok(b)
    case _ => Err(TypeError)
  }

  function AsString(j: Json): Result<string, JsonError> {
    match j
    case JStr(s) => Ok(s)
    case _ => Err(TypeError)
  }

  function AsArray(j: Json): Result<seq<Json>, JsonError> {
    match j
    case JArr(es) => Ok(es)
    case _ => Err(TypeError)
  }

  predicate Contains(j: Json, key: Key) {
    j.JObj? && key in j.fields
  }

  function At(j: Json, key: Key): Result<Json, JsonError> {
    if !j.JObj? then Err(TypeError)
    else if key in j.fields then Ok(j.fields[key])
    else Err(MissingKey)
  }

  /** `value(key, default)`: the default only when the key is absent from an object. */
  function AtOr(j: Json, key: Key, default: Json): Result<Json, JsonError> {
    if !j.JObj? then Err(TypeError)
    else Ok(if key in j.fields then j.fields[key] else default)
  }

  /** An index past the end, undefined in the source, is an error here. */
  function Nth(j: Json, i: nat): Result<Json, JsonError> {
    if !j.JArr? then Err(TypeError)
    else if i < |j.elems| then Ok(j.elems[i])
    else Err(OutOfBounds)
  }

  function NthReal(j: Json, i: nat): Result<real, JsonError> {
    var e :- Nth(j, i);
    AsReal(e)
  }

  function Triple(a: real, b: real, c: real): Json {
    JArr([JNum(a), JNum(b), JNum(c)])
  }

  function ReadTriple(j: Json): Result<(real, real, real), JsonError> {
    var a :- NthReal(j, 0);
    var b :- NthReal(j, 1);
    var c :- NthReal(j, 2);
    Ok((a, b, c))
  }

  function Ints(s: seq<int>): Json {
    JArr(seq(|s|, i requires 0 <= i < |s| => JInt(s[i])))
  }

  function Reals(s: seq<real>): Json {
    JArr(seq(|s|, i requires 0 <= i < |s| => JNum(s[i])))
  }

  function Strings(s: seq<string>): Json {
    JArr(seq(|s|, i requires 0 <= i < |s| => JStr(s[i])))
  }

  function ReadAll<T>(es: seq<Json>, read: Json -> Result<T, JsonError>): Result<seq<T>, JsonError> {
    if es == [] then Ok([])
    else
      var first :- read(es[0]);
      var rest :- ReadAll(es[1..], read);
      Ok([first] + rest)
  }

  function ReadVector<T>(j: Json, read: Json -> Result<T, JsonError>): Result<seq<T>, JsonError> {
    var es :- AsArray(j);
    ReadAll(es, read)
  }

  function ReadInts(j: Json, t: IntType): Result<seq<int>, JsonError> {
    ReadVector(j, e => AsInt(e, t))
  }

  function ReadReals(j: Json): Result<seq<real>, JsonError> {
    ReadVector(j, e => AsReal(e))
  }

  function ReadStrings(j: Json): Result<seq<string>, JsonError> {
    ReadVector(j, e => AsString(e))
  }

  /** Reading an array back element by element recovers the sequence it was written from. */
  lemma {:induction false} ReadAllInverts<T>(es: seq<Json>, read: Json -> Result<T, JsonError>, s: seq<T>)
    requires |es| == |s|
    requires forall i :: 0 <= i < |s| ==> read(es[i]) == Ok(s[i])
    ensures ReadAll(es, read) == Ok(s)
  {
    if es != [] {
      ReadAllInverts(es[1..], read, s[1..]);
      assert [s[0]] + s[1..] == s;
    }
  }

  /** One element that cannot be read fails the array. */
  lemma {:induction false} ReadAllFails<T>(es: seq<Json>, read: Json -> Result<T, JsonError>, k: nat)
    requires k < |es| && read(es[k]).Err?
    ensures ReadAll(es, read).Err?
  {
    if k > 0 { ReadAllFails(es[1..], read, k - 1); }
  }

  /** Conversely, what a successful read returns is what each element reads as. */
  lemma {:induction false} ReadAllElements<T>(es: seq<Json>, read: Json -> Result<T, JsonError>)
    requires ReadAll(es, read).Ok?
    ensures var s := ReadAll(es, read).value;
            |s| == |es| && forall i :: 0 <= i < |es| ==> read(es[i]) == Ok(s[i])
  {
    if es != [] {
      ReadAllElements(es[1..], read);
      var s, rest := ReadAll(es, read).value, ReadAll(es[1..], read).value;
      forall i | 0 <= i < |es|
        ensures read(es[i]) == Ok(s[i])
      {
        if i > 0 { assert es[i] == es[1..][i - 1] && s[i] == rest[i - 1]; }
      }
    }
  }

  lemma ReadIntsFit(j: Json, t: IntType)
    requires ReadInts(j, t).Ok? && (t == INT32 || t == UINT16)
    ensures forall i :: 0 <= i < |ReadInts(j, t).value| ==> Fits(t, ReadInts(j, t).value[i])
  {
    ReadAllElements(j.elems, e => AsInt(e, t));
  }

  lemma IntsRoundTrip(s: seq<int>, t: IntType)
    requires forall i :: 0 <= i < |s| ==> Fits(t, s[i])
    ensures ReadInts(Ints(s), t) == Ok(s)
  {
    ReadAllInverts(Ints(s).elems, e => AsInt(e, t), s);
  }

  lemma RealsRoundTrip(s: seq<real>)
    ensures ReadReals(Reals(s)) == Ok(s)
  {
    ReadAllInverts(Reals(s).elems, e => AsReal(e), s);
  }

  lemma StringsRoundTrip(s: seq<string>)
    ensures ReadStrings(Strings(s)) == Ok(s)
  {
    ReadAllInverts(Strings(s).elems, e => AsString(e), s);
  }
}
