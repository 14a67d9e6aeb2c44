/**
 * The value conversions of the metadata loader: Python's `float()` and `int()`
 * raising on bad input, the EXIF fraction reader `_exifFractVal`, the split of
 * property keys into EXIF keys and the rest, and the decoding of EXIF
 * enumerations through lookup tables.
 */
module ExifValues {
  import opened Wrappers
  import opened Text
  import opened Numbers

  /** The exceptions the loader can raise on a property value. */
  datatype LoadError =
    | ValueError(text: string)                   // `float()`/`int()` of a non-numeric text
    | ZeroDivisionError                          // a fraction whose denominator is zero
    | UnknownEnumValue(enumName: string, code: int)  // an enumeration code the table does not know

  /** `float(s)` */
  function ToFloat(s: string): Result<real, LoadError> {
    match ParseReal(s)
    case Some(x) => Success(x)
    case None => Failure(ValueError(s))
  }

  /** `int(s)` */
  function ToInt(s: string): Result<int, LoadError> {
    match ParseInt(s)
    case Some(n) => Success(n)
    case None => Failure(ValueError(s))
  }

  /** The default `'0'` of a lookup converts to 0. */
  lemma ToIntOfZero()
    ensures ToInt("0") == Success(0)
  {
    TrimOfTrimmed("0");
  }

  /** `int(float(s))` */
  function FloatToInt(s: string): Result<int, LoadError> {
    match ParseReal(s)
    case Some(x) => Success(Truncate(x))
    case None => Failure(ValueError(s))
  }

  /** `[x.strip() for x in parts]` */
  function StripAll(parts: seq<string>): (r: seq<string>)
    ensures |r| == |parts|
    decreases |parts|
  {
    if parts == [] then [] else [Strip(parts[0])] + StripAll(parts[1..])
  }

  /** `[x for x in parts if len(x) > 0]` */
  function DropEmpty(parts: seq<string>): (r: seq<string>)
    ensures |r| <= |parts|
    ensures forall x :: x in r <==> x in parts && x != []
    decreases |parts|
  {
    if parts == [] then []
    else (if parts[0] == [] then [] else [parts[0]]) + DropEmpty(parts[1..])
  }

  /** Filtering keeps the order: the kept pieces of `ps + qs` are those of `ps`, then those of `qs`. */
  lemma {:induction false} DropEmptyAppend(ps: seq<string>, qs: seq<string>)
    ensures DropEmpty(ps + qs) == DropEmpty(ps) + DropEmpty(qs)
    decreases |ps|
  {
    if ps == [] {
      assert ps + qs == qs;
    } else {
      assert (ps + qs)[0] == ps[0] && (ps + qs)[1..] == ps[1..] + qs;
      DropEmptyAppend(ps[1..], qs);
    }
  }

  /** The non-blank, stripped pieces of `v` between slashes. */
  function FractPieces(v: string): seq<string> {
    DropEmpty(StripAll(Split(v, '/')))
  }

  /** The number the pieces of a fraction stand for: none, the first, or the first over the second. */
  function PiecesValue(parts: seq<string>): Result<Option<real>, LoadError> {
    if |parts| < 1 then Success(None)
    else if |parts| < 2 then
      match ToFloat(parts[0])
      case Failure(e) => Failure(e)
      case Success(x) => Success(Some(x))
    else
      match ToFloat(parts[0])
      case Failure(e) => Failure(e)
      case Success(num) =>
        match ToFloat(parts[1])
        case Failure(e) => Failure(e)
        case Success(den) => if den == 0.0 then Failure(ZeroDivisionError) else Success(Some(num / den))
  }

  /**
   * `_exifFractVal(v)`: nothing, one number, or the first number divided by
   * the second. The empty text, the default of every lookup, is answered
   * directly; `FractValIsPiecesValue` shows it is no special case.
   */
  function FractVal(v: string): Result<Option<real>, LoadError> {
    if v == [] then Success(None) else PiecesValue(FractPieces(v))
  }

  lemma FractValIsPiecesValue(v: string)
    ensures FractVal(v) == PiecesValue(FractPieces(v))
  {
    if v == [] {
      assert Split(v, '/') == [v];
    }
  }

  /** Every character of `v` is a slash or whitespace. */
  predicate Blank(v: string) {
    forall i :: 0 <= i < |v| ==> v[i] == '/' || IsSpace(v[i])
  }

  lemma {:induction false} PiecesOfPieceThenRest(x: string, rest: seq<string>)
    ensures DropEmpty(StripAll([x] + rest))
      == (if Strip(x) == [] then [] else [Strip(x)]) + DropEmpty(StripAll(rest))
  {
    assert ([x] + rest)[0] == x && ([x] + rest)[1..] == rest;
    var s := StripAll([x] + rest);
    assert s[0] == Strip(x) && s[1..] == StripAll(rest);
  }

  lemma {:induction false} FractPiecesAfterPiece(x: string, y: string)
    requires '/' !in x
    ensures FractPieces(x + "/" + y) == (if Strip(x) == [] then [] else [Strip(x)]) + FractPieces(y)
  {
    SplitAfterPiece(x, '/', y);
    PiecesOfPieceThenRest(x, Split(y, '/'));
  }

  lemma {:induction false} FractPiecesOfPiece(x: string)
    requires '/' !in x
    ensures FractPieces(x) == if Strip(x) == [] then [] else [Strip(x)]
  {
    PiecesOfPieceThenRest(x, []);
    assert [x] + [] == [x];
  }

  lemma {:induction false} FractPiecesEmptyIffBlank(v: string)
    ensures FractPieces(v) == [] <==> Blank(v)
    decreases |v|
  {
    if '/' !in v {
      FractPiecesOfPiece(v);
      StripEmptyIffBlank(v);
    } else {
      var i := IndexOf(v, '/');
      assert v == v[..i] + "/" + v[i + 1..];
      FractPiecesAfterPiece(v[..i], v[i + 1..]);
      StripEmptyIffBlank(v[..i]);
      FractPiecesEmptyIffBlank(v[i + 1..]);
      if Blank(v[..i]) && Blank(v[i + 1..]) {
        forall k | 0 <= k < |v| ensures v[k] == '/' || IsSpace(v[k]) {
          if k < i { assert v[k] == v[..i][k]; }
          else if k > i { assert v[k] == v[i + 1..][k - i - 1]; }
        }
      }
    }
  }

  /** `_exifFractVal` returns None exactly when `v` holds nothing but slashes and whitespace. */
  lemma {:induction false} FractValNoneIffBlank(v: string)
    ensures FractVal(v) == Success(None) <==> Blank(v)
  {
    FractPiecesEmptyIffBlank(v);
  }

  lemma {:induction false} FractValOfSamePieces(v: string, w: string)
    requires FractPieces(v) == FractPieces(w)
    ensures FractVal(v) == FractVal(w)
  {
  }

  /** A single number reads as itself, whatever whitespace surrounds it: `_exifFractVal(" 2.8 ") == 2.8`. */
  lemma {:induction false} FractValOfNumber(x: string, r: real)
    requires '/' !in x
    requires ParseReal(x) == Some(r)
    ensures FractVal(x) == Success(Some(r))
  {
    ParseRealOfStripped(x);
    FractPiecesOfPiece(x);
  }

  /** `"a/b"` reads as the quotient of the two numbers, and raises ZeroDivisionError when the second is zero. */
  lemma {:induction false} FractValOfQuotient(x: string, y: string, p: real, q: real)
    requires '/' !in x && '/' !in y
    requires ParseReal(x) == Some(p) && ParseReal(y) == Some(q)
    ensures FractVal(x + "/" + y) == if q == 0.0 then Failure(ZeroDivisionError) else Success(Some(p / q))
  {
    ParseRealOfStripped(x);
    ParseRealOfStripped(y);
    PiecesOfTwo(x, y);
  }

  lemma {:induction false} PiecesValueFirstTwo(ps: seq<string>, qs: seq<string>)
    requires |ps| >= 2 && |qs| >= 2 && ps[..2] == qs[..2]
    ensures PiecesValue(ps) == PiecesValue(qs)
  {
    assert ps[0] == ps[..2][0] && ps[1] == ps[..2][1];
    assert qs[0] == qs[..2][0] && qs[1] == qs[..2][1];
  }

  lemma {:induction false} PiecesOfTwo(x: string, y: string)
    requires '/' !in x && '/' !in y
    requires Strip(x) != [] && Strip(y) != []
    ensures FractPieces(x + "/" + y) == [Strip(x), Strip(y)]
  {
    FractPiecesOfPiece(y);
    FractPiecesAfterPiece(x, y);
    assert [Strip(x)] + [Strip(y)] == [Strip(x), Strip(y)];
  }

  lemma ConsTwo(p: string, q: string, rs: seq<string>)
    ensures [p] + ([q] + rs) == [p, q] + rs
  {
  }

  lemma {:induction false} PiecesOfTwoThenRest(x: string, y: string, rest: string)
    requires '/' !in x && '/' !in y
    requires Strip(x) != [] && Strip(y) != []
    ensures FractPieces(x + "/" + (y + "/" + rest)) == [Strip(x), Strip(y)] + FractPieces(rest)
  {
    FractPiecesAfterPiece(y, rest);
    FractPiecesAfterPiece(x, y + "/" + rest);
    ConsTwo(Strip(x), Strip(y), FractPieces(rest));
  }

  /** Only the first two pieces matter: whatever follows a second slash is ignored. */
  lemma {:induction false} FractValIgnoresRest(x: string, y: string, rest: string)
    requires '/' !in x && '/' !in y
    requires Strip(x) != [] && Strip(y) != []
    ensures FractVal(x + "/" + y + "/" + rest) == FractVal(x + "/" + y)
  {
    assert x + "/" + y + "/" + rest == x + "/" + (y + "/" + rest);
    PiecesOfTwoThenRest(x, y, rest);
    PiecesOfTwo(x, y);
    var ps := [Strip(x), Strip(y)] + FractPieces(rest);
    assert ps[..2] == [Strip(x), Strip(y)];
    PiecesValueFirstTwo(ps, [Strip(x), Strip(y)]);
  }

  /** A leading slash changes nothing. */
  lemma {:induction false} FractValIgnoresLeadingSlash(v: string)
    ensures FractVal("/" + v) == FractVal(v)
  {
    assert "/" + v == [] + "/" + v;
    FractPiecesAfterPiece([], v);
    FractValOfSamePieces("/" + v, v);
  }

  /** A piece that is not a number raises ValueError; it does not read as None. */
  lemma {:induction false} FractValOfNonNumber(x: string)
    requires '/' !in x && Strip(x) != []
    requires ParseReal(Strip(x)) == None
    ensures FractVal(x) == Failure(ValueError(Strip(x)))
  {
    FractPiecesOfPiece(x);
  }

  /** In `x/y` the first piece `float()` does not read raises ValueError: `x` is read first, then `y`. */
  lemma {:induction false} FractValOfNonNumberPair(x: string, y: string)
    requires '/' !in x && '/' !in y
    requires Strip(x) != [] && Strip(y) != []
    ensures ParseReal(Strip(x)) == None ==> FractVal(x + "/" + y) == Failure(ValueError(Strip(x)))
    ensures ParseReal(Strip(x)).Some? && ParseReal(Strip(y)) == None ==>
      FractVal(x + "/" + y) == Failure(ValueError(Strip(y)))
  {
    PiecesOfTwo(x, y);
  }

  /** `x.lower().find('exif:') == 0` */
  predicate IsExifKey(k: string) {
    Find(Lower(k), "exif:") == 0
  }

  /** `exif_keys`: the property keys with an `exif:` prefix in any letter case. */
  function ExifKeys(props: map<string, string>): set<string> {
    set k | k in props && IsExifKey(k)
  }

  /** `prop_keys`: the remaining property keys. */
  function OtherKeys(props: map<string, string>, exifKeys: set<string>): set<string> {
    set k | k in props && k !in exifKeys
  }

  /** The two key sets split the property keys between them. */
  lemma KeysPartition(props: map<string, string>)
    ensures ExifKeys(props) !! OtherKeys(props, ExifKeys(props))
    ensures ExifKeys(props) + OtherKeys(props, ExifKeys(props)) == props.Keys
  {
  }

  /** A key is an EXIF key exactly when its first five characters spell `exif:` ignoring case. */
  lemma {:induction false} ExifKeyIffPrefix(k: string)
    ensures IsExifKey(k) <==> |k| >= 5 && Lower(k[..5]) == "exif:"
  {
    FindZeroIffPrefix(Lower(k), "exif:");
    if |k| >= 5 {
      assert Lower(k)[..5] == Lower(k[..5]);
    }
  }

  /** Every key spelled `exif:...` is an EXIF key. */
  lemma {:induction false} ExifPrefixIsExifKey(rest: string)
    ensures IsExifKey("exif:" + rest)
  {
    ExifKeyIffPrefix("exif:" + rest);
    assert ("exif:" + rest)[..5] == "exif:";
    assert Lower("exif:") == "exif:";
  }

  /** `str(b)` for a bool. */
  function BoolText(b: bool): string {
    if b then "True" else "False"
  }

  /** What `exif.Flash(code)` yields: whether the flash fired, and the name of its mode. */
  datatype FlashDecoding = FlashDecoding(fired: bool, mode: string)

  /**
   * The enumerations of the external `exif` package, as partial maps from
   * code to member name; a code outside a map raises ValueError there.
   */
  datatype ExifTables = ExifTables(
    exposureMode: map<int, string>,
    exposureProgram: map<int, string>,
    whiteBalance: map<int, string>,
    meteringMode: map<int, string>,
    flash: map<int, FlashDecoding>)

  /** `Enum(int(raw)).name` */
  function DecodeEnum(enumName: string, table: map<int, string>, raw: string): (r: Result<string, LoadError>)
    ensures r.Success? ==> r.value in table.Values
  {
    match ToInt(raw)
    case Failure(e) => Failure(e)
    case Success(code) => if code in table then Success(table[code]) else Failure(UnknownEnumValue(enumName, code))
  }

  /** `exif.Flash(int(raw))` */
  function DecodeFlash(table: map<int, FlashDecoding>, raw: string): (r: Result<FlashDecoding, LoadError>)
    ensures r.Success? ==> r.value in table.Values
  {
    match ToInt(raw)
    case Failure(e) => Failure(e)
    case Success(code) => if code in table then Success(table[code]) else Failure(UnknownEnumValue("Flash", code))
  }

  /** The text of a code decodes to the code's member name, and raises when the enumeration has no such code. */
  lemma {:induction false} DecodeEnumOfCode(enumName: string, table: map<int, string>, code: int)
    ensures DecodeEnum(enumName, table, IntToString(code))
      == if code in table then Success(table[code]) else Failure(UnknownEnumValue(enumName, code))
  {
    ParseIntRoundTrip(code);
  }

  /** The text of a flash code decodes to what the flash enumeration holds for it, and raises when it has no such code. */
  lemma {:induction false} DecodeFlashOfCode(table: map<int, FlashDecoding>, code: int)
    ensures DecodeFlash(table, IntToString(code))
      == if code in table then Success(table[code]) else Failure(UnknownEnumValue("Flash", code))
  {
    ParseIntRoundTrip(code);
  }
}
