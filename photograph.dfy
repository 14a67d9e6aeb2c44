/**
 * A photograph's catalogue record and `Photograph.loadJSON`, which fills it in
 * from an ImageMagick JSON dump: file data first, then the EXIF values, the
 * EXIF enumerations, the raw-file (dng) values when the dump has no EXIF key
 * at all, and finally the date. A conversion that raises stops the load with
 * the fields assigned before it already changed.
 */
module Photographs {
  import opened Wrappers
  import opened Text
  import Numbers
  import opened MimeTypes
  import opened ExifValues
  import opened Documents
  import opened DateTimes

  /** The file and image attributes (`signature` … `depth`). */
  datatype FileData = FileData(
    signature: string,
    basename: string,
    mimetype: string,
    fullpath: string,
    format: string,
    filesize: string,
    width: int,
    height: int,
    depth: int)

  /** The exposure values (`focal_length`, `f_stop`, `exp_bias`, `exp_time`, `shutter`, `iso`). */
  datatype Exposure = Exposure(
    focalLength: Option<real>,
    fStop: Option<real>,
    expBias: Option<real>,
    expTime: Option<real>,
    shutter: string,
    iso: int)

  /** The attributes decoded from EXIF enumerations (`exp_mode` … `metering_mode`). */
  datatype Settings = Settings(
    expMode: string,
    expProgram: string,
    whiteBalance: string,
    flashFired: string,
    flashMode: string,
    meteringMode: string)

  /** The camera attributes. */
  datatype Camera = Camera(
    cameraMake: string,
    cameraModel: string,
    lens: string,
    // None while the attribute does not exist; the raw-file block creates it
    cameraSerial: Option<Option<string>>)

  /** The attributes of a `Photograph`, as a value. */
  datatype Record = Record(file: FileData, exposure: Exposure, settings: Settings, camera: Camera, datetime: Option<DateTime>)

  /** The attributes `__init__` sets. */
  const InitialRecord := Record(
    FileData("", "", "", "", "", "", 0, 0, 0),
    Exposure(Some(0.0), Some(0.0), Some(0.0), Some(0.0), "", 0),
    Settings("", "", "", "", "", ""),
    Camera("", "", "", None),
    None)

  /** A load in progress: still running, or stopped by an exception with the record as it was then. */
  datatype Progress = Running(rec: Record) | Aborted(rec: Record, error: LoadError) {
    predicate IsFailure() {
      Aborted?
    }

    function PropagateFailure(): Progress
      requires Aborted?
    {
      this
    }

    function Extract(): Record
      requires Running?
    {
      rec
    }
  }

  /**
   * A conversion inside the load: its value, or the exception it raised
   * together with the record as it was when the exception stopped the load.
   */
  datatype Attempt<+T> = Converted(value: T) | Raised(at: Record, error: LoadError) {
    predicate IsFailure() {
      Raised?
    }

    function PropagateFailure(): Progress
      requires Raised?
    {
      Aborted(at, error)
    }

    function Extract(): T
      requires Converted?
    {
      value
    }
  }

  /** A conversion of the load that was at `rec` when it ran. */
  function Try<T>(rec: Record, value: Result<T, LoadError>): Attempt<T> {
    match value
    case Success(x) => Converted(x)
    case Failure(e) => Raised(rec, e)
  }

  /** The file data and image data block: nothing in it can raise. */
  function FileStep(img: Image): FileData {
    var props := PropertiesOf(img);
    var geom := GeometryOf(img);
    var fullpath := img.name.GetOr("");
    var format := NormalizeFormat(img.format.GetOr(""));
    FileData(
      Get(props, "signature", ""),
      Basename(fullpath),
      MimeType(format),
      fullpath,
      format,
      img.filesize.GetOr(""),
      geom.width.GetOr(0),
      geom.height.GetOr(0),
      img.depth.GetOr(0))
  }

  /** The EXIF exposure values, up to the sensitivity. */
  function ExifValueStep(props: map<string, string>, rec: Record): Progress {
    var focal :- Try(rec, FractVal(Get(props, "exif:FocalLength", "")));
    var r1 := rec.(exposure := rec.exposure.(focalLength := focal));
    var stop :- Try(r1, FractVal(Get(props, "exif:FNumber", "")));
    var r2 := r1.(exposure := r1.exposure.(fStop := stop));
    var time :- Try(r2, FractVal(Get(props, "exif:ExposureTime", "")));
    var r3 := r2.(exposure := r2.exposure.(expTime := time, shutter := Get(props, "exif:ExposureTime", "")));
    var bias :- Try(r3, FractVal(Get(props, "exif:ExposureBiasValue", "")));
    var r4 := r3.(exposure := r3.exposure.(expBias := bias));
    var sensitivity :- Try(r4, ToInt(Get(props, "exif:PhotographicSensitivity", "0")));
    Running(r4.(exposure := r4.exposure.(iso := sensitivity)))
  }

  /** The EXIF data block: the exposure values, then the camera make and model. */
  function ExifStep(props: map<string, string>, rec: Record): Progress {
    var r :- ExifValueStep(props, rec);
    Running(r.(camera := r.camera.(cameraMake := Get(props, "exif:Make", ""),
                                   cameraModel := Get(props, "exif:Model", ""))))
  }

  /** The first three EXIF enumerations: exposure mode, exposure program, white balance. */
  function ExposureEnumStep(props: map<string, string>, tables: ExifTables, rec: Record): Progress {
    var mode :- if "exif:ExposureMode" in props
                then Try(rec, DecodeEnum("ExposureMode", tables.exposureMode, props["exif:ExposureMode"]))
                else Converted(rec.settings.expMode);
    var r1 := rec.(settings := rec.settings.(expMode := mode));
    var program :- if "exif:ExposureProgram" in props
                   then Try(r1, DecodeEnum("ExposureProgram", tables.exposureProgram, props["exif:ExposureProgram"]))
                   else Converted(r1.settings.expProgram);
    var r2 := r1.(settings := r1.settings.(expProgram := program));
    var balance :- if "exif:WhiteBalance" in props
                   then Try(r2, DecodeEnum("WhiteBalance", tables.whiteBalance, props["exif:WhiteBalance"]))
                   else Converted(r2.settings.whiteBalance);
    Running(r2.(settings := r2.settings.(whiteBalance := balance)))
  }

  /** The last two EXIF enumerations: metering mode and flash. */
  function MeteringEnumStep(props: map<string, string>, tables: ExifTables, rec: Record): Progress {
    var metering :- if "exif:MeteringMode" in props
                    then Try(rec, DecodeEnum("MeteringMode", tables.meteringMode, props["exif:MeteringMode"]))
                    else Converted(rec.settings.meteringMode);
    var r1 := rec.(settings := rec.settings.(meteringMode := metering));
    if "exif:Flash" in props then
      var flash :- Try(r1, DecodeFlash(tables.flash, props["exif:Flash"]));
      Running(r1.(settings := r1.settings.(flashFired := BoolText(flash.fired), flashMode := flash.mode)))
    else Running(r1)
  }

  /** The EXIF enumerations block: each attribute is decoded only when its key is present. */
  function EnumStep(props: map<string, string>, tables: ExifTables, rec: Record): Progress {
    var r :- ExposureEnumStep(props, tables, rec);
    MeteringEnumStep(props, tables, r)
  }

  /** `props.get('dng:serial.number')`: the value, or None. */
  function SerialNumber(props: map<string, string>): Option<string> {
    if "dng:serial.number" in props then Some(props["dng:serial.number"]) else None
  }

  /**
   * `float(props.get(key, default))` for a literal `default` whose value is `d`:
   * the default is never parsed (`FloatOrMatchesGet`).
   */
  function FloatOr(props: map<string, string>, key: string, d: real): Result<real, LoadError> {
    if key in props then ToFloat(props[key]) else Success(d)
  }

  /** `int(float(props.get(key, default)))` for a literal `default` whose value is `d`. */
  function FloatToIntOr(props: map<string, string>, key: string, d: int): Result<int, LoadError> {
    if key in props then FloatToInt(props[key]) else Success(d)
  }

  /** The defaults `'0.0'` and `'0'` of the raw-file block convert to zero. */
  lemma FloatOrMatchesGet(props: map<string, string>, key: string)
    ensures FloatOr(props, key, 0.0) == ToFloat(Get(props, key, "0.0"))
    ensures FloatToIntOr(props, key, 0) == FloatToInt(Get(props, key, "0"))
  {
    if key !in props {
      assert Numbers.Trim("0.0") == "0.0" by { Numbers.TrimOfTrimmed("0.0"); }
      assert Numbers.UnsignedDecimal("0.0") == Some(0.0);
      assert Numbers.Trim("0") == "0" by { Numbers.TrimOfTrimmed("0"); }
      assert Numbers.UnsignedDecimal("0") == Some(0.0);
    }
  }

  /** The raw-file (dng) block, run when no property key is an EXIF key. */
  function RawStep(props: map<string, string>, rec: Record): Progress {
    var focal :- Try(rec, FloatOr(props, "dng:ocal.length", 0.0));
    var r1 := rec.(exposure := rec.exposure.(focalLength := Some(focal)));
    var stop :- Try(r1, FloatOr(props, "dng:f.number", 0.0));
    var r2 := r1.(exposure := r1.exposure.(fStop := Some(stop)),
                  camera := Camera(Get(props, "dng:make", ""),
                                   Get(props, "dng:camera.model.name", ""),
                                   Get(props, "dng:lens", ""),
                                   Some(SerialNumber(props))));
    var sensitivity :- Try(r2, FloatToIntOr(props, "dng:iso.setting", 0));
    var r3 := r2.(exposure := r2.exposure.(iso := sensitivity));
    var time :- Try(r3, FractVal(Get(props, "dng:exposure.time", "")));
    Running(r3.(exposure := r3.exposure.(expTime := time, shutter := Get(props, "dng:exposure.time", "0"))))
  }

  /** Every block after the file data, up to the date. */
  function ValueSteps(props: map<string, string>, tables: ExifTables, rec: Record): Progress {
    var r1 :- ExifStep(props, rec);
    var r2 :- EnumStep(props, tables, r1);
    if |ExifKeys(props)| < 1 then RawStep(props, r2) else Running(r2)
  }

  /**
   * `loadJSON(doc)` on a photograph whose attributes are `prev`: the
   * attributes afterwards, and the exception raised, if any.
   */
  function Load(doc: Document, tables: ExifTables, prev: Record): (Record, Option<LoadError>) {
    var img := ImageOf(doc);
    var props := PropertiesOf(img);
    match ValueSteps(props, tables, prev.(file := FileStep(img)))
    case Aborted(r, e) => (r, Some(e))
    case Running(r) => (r.(datetime := EarliestDate(props, DateTags)), None)
  }

  /** A record and the exception raised, read as a load in progress. */
  function Outcome(rec: Record, err: Option<LoadError>): Progress {
    if err.Some? then Aborted(rec, err.value) else Running(rec)
  }

  /**
   * A photograph in the catalogue. Its attributes are kept in four blocks
   * (file, exposure, settings, camera) and the date; `loadJSON` changes them one at a time.
   */
  class Photograph {
    var file: FileData
    var exposure: Exposure
    var settings: Settings
    var camera: Camera
    var datetime: Option<DateTime>

    /** The attributes as a value. */
    function Snapshot(): Record
      reads this
    {
      Record(file, exposure, settings, camera, datetime)
    }

    /** `Photograph()` */
    constructor()
      ensures Snapshot() == InitialRecord
    {
      file := FileData("", "", "", "", "", "", 0, 0, 0);
      exposure := Exposure(Some(0.0), Some(0.0), Some(0.0), Some(0.0), "", 0);
      settings := Settings("", "", "", "", "", "");
      camera := Camera("", "", "", None);
      datetime := None;
    }

    /** `loadJSON(jdata)` on an already parsed dump; the exception it raises, if any, is returned. */
    method LoadJson(doc: Document, tables: ExifTables) returns (err: Option<LoadError>)
      modifies this
      ensures (Snapshot(), err) == Load(doc, tables, old(Snapshot()))
    {
      var img := ImageOf(doc);
      var props := PropertiesOf(img);
      LoadFileData(img);
      ghost var filed := Snapshot();
      err := LoadExifData(props);
      if err.Some? {
        return;
      }
      err := LoadExifEnums(props, tables);
      if err.Some? {
        return;
      }
      if |ExifKeys(props)| < 1 {
        err := LoadRawData(props);
        if err.Some? {
          return;
        }
      }
      assert ValueSteps(props, tables, filed) == Running(Snapshot());
      ghost var valued := Snapshot();
      datetime := GetDateTime(img);
      assert Snapshot() == valued.(datetime := EarliestDate(props, DateTags));
    }

    /** The file data and image data block. */
    method LoadFileData(img: Image)
      modifies this
      ensures Snapshot() == old(Snapshot()).(file := FileStep(img))
    {
      var props := PropertiesOf(img);
      var geom := GeometryOf(img);
      var fullpath := img.name.GetOr("");
      var format := NormalizeFormat(img.format.GetOr(""));
      file := file.(signature := Get(props, "signature", ""));
      file := file.(fullpath := fullpath);
      file := file.(filesize := img.filesize.GetOr(""));
      file := file.(basename := Basename(fullpath));
      file := file.(format := format);
      file := file.(mimetype := MimeType(format));
      file := file.(width := geom.width.GetOr(0));
      file := file.(height := geom.height.GetOr(0));
      file := file.(depth := img.depth.GetOr(0));
    }

    /** The EXIF data block. */
    method LoadExifData(props: map<string, string>) returns (err: Option<LoadError>)
      modifies this
      ensures Outcome(Snapshot(), err) == ExifStep(props, old(Snapshot()))
    {
      var focal := FractVal(Get(props, "exif:FocalLength", ""));
      if focal.Failure? {
        return Some(focal.error);
      }
      exposure := exposure.(focalLength := focal.value);
      var stop := FractVal(Get(props, "exif:FNumber", ""));
      if stop.Failure? {
        return Some(stop.error);
      }
      exposure := exposure.(fStop := stop.value);
      var time := FractVal(Get(props, "exif:ExposureTime", ""));
      if time.Failure? {
        return Some(time.error);
      }
      exposure := exposure.(expTime := time.value);
      exposure := exposure.(shutter := Get(props, "exif:ExposureTime", ""));
      var bias := FractVal(Get(props, "exif:ExposureBiasValue", ""));
      if bias.Failure? {
        return Some(bias.error);
      }
      exposure := exposure.(expBias := bias.value);
      var sensitivity := ToInt(Get(props, "exif:PhotographicSensitivity", "0"));
      if sensitivity.Failure? {
        return Some(sensitivity.error);
      }
      exposure := exposure.(iso := sensitivity.value);
      camera := camera.(cameraMake := Get(props, "exif:Make", ""));
      camera := camera.(cameraModel := Get(props, "exif:Model", ""));
      return None;
    }

    /** The EXIF enumerations block. */
    method LoadExifEnums(props: map<string, string>, tables: ExifTables) returns (err: Option<LoadError>)
      modifies this
      ensures Outcome(Snapshot(), err) == EnumStep(props, tables, old(Snapshot()))
    {
      err := LoadExposureEnums(props, tables);
      if err.Some? {
        return;
      }
      err := LoadMeteringEnums(props, tables);
    }

    /**
     * Exposure mode, exposure program and white balance. The code has one
     * enumerations block; it is split in two here only to keep each proof small.
     */
    method LoadExposureEnums(props: map<string, string>, tables: ExifTables) returns (err: Option<LoadError>)
      modifies this
      ensures Outcome(Snapshot(), err) == ExposureEnumStep(props, tables, old(Snapshot()))
    {
      if "exif:ExposureMode" in props {
        var mode := DecodeEnum("ExposureMode", tables.exposureMode, props["exif:ExposureMode"]);
        if mode.Failure? {
          return Some(mode.error);
        }
        settings := settings.(expMode := mode.value);
      }
      if "exif:ExposureProgram" in props {
        var program := DecodeEnum("ExposureProgram", tables.exposureProgram, props["exif:ExposureProgram"]);
        if program.Failure? {
          return Some(program.error);
        }
        settings := settings.(expProgram := program.value);
      }
      if "exif:WhiteBalance" in props {
        var balance := DecodeEnum("WhiteBalance", tables.whiteBalance, props["exif:WhiteBalance"]);
        if balance.Failure? {
          return Some(balance.error);
        }
        settings := settings.(whiteBalance := balance.value);
      }
      return None;
    }

    /** Metering mode and flash. */
    method LoadMeteringEnums(props: map<string, string>, tables: ExifTables) returns (err: Option<LoadError>)
      modifies this
      ensures Outcome(Snapshot(), err) == MeteringEnumStep(props, tables, old(Snapshot()))
    {
      if "exif:MeteringMode" in props {
        var metering := DecodeEnum("MeteringMode", tables.meteringMode, props["exif:MeteringMode"]);
        if metering.Failure? {
          return Some(metering.error);
        }
        settings := settings.(meteringMode := metering.value);
      }
      if "exif:Flash" in props {
        var flash := DecodeFlash(tables.flash, props["exif:Flash"]);
        if flash.Failure? {
          return Some(flash.error);
        }
        settings := settings.(flashFired := BoolText(flash.value.fired));
        settings := settings.(flashMode := flash.value.mode);
      }
      return None;
    }

    /** The raw-file (dng) block. */
    method LoadRawData(props: map<string, string>) returns (err: Option<LoadError>)
      modifies this
      ensures Outcome(Snapshot(), err) == RawStep(props, old(Snapshot()))
    {
      var focal := FloatOr(props, "dng:ocal.length", 0.0);
      if focal.Failure? {
        return Some(focal.error);
      }
      exposure := exposure.(focalLength := Some(focal.value));
      var stop := FloatOr(props, "dng:f.number", 0.0);
      if stop.Failure? {
        return Some(stop.error);
      }
      exposure := exposure.(fStop := Some(stop.value));
      var lens := Get(props, "dng:lens", "");
      var make := Get(props, "dng:make", "");
      var model := Get(props, "dng:camera.model.name", "");
      camera := Camera(make, model, lens, Some(SerialNumber(props)));
      var sensitivity := FloatToIntOr(props, "dng:iso.setting", 0);
      if sensitivity.Failure? {
        return Some(sensitivity.error);
      }
      exposure := exposure.(iso := sensitivity.value);
      var time := FractVal(Get(props, "dng:exposure.time", ""));
      if time.Failure? {
        return Some(time.error);
      }
      exposure := exposure.(expTime := time.value);
      exposure := exposure.(shutter := Get(props, "dng:exposure.time", "0"));
      return None;
    }
  }

  // ---------------------------------------------------------------------------
  // What each block leaves alone

  /** The EXIF exposure values touch only the exposure block. */
  lemma ExifValueStepFrame(props: map<string, string>, rec: Record)
    ensures var r := ExifValueStep(props, rec).rec;
      r.file == rec.file && r.settings == rec.settings && r.camera == rec.camera && r.datetime == rec.datetime
  {
    var focal := FractVal(Get(props, "exif:FocalLength", ""));
    var stop := FractVal(Get(props, "exif:FNumber", ""));
    var time := FractVal(Get(props, "exif:ExposureTime", ""));
    var bias := FractVal(Get(props, "exif:ExposureBiasValue", ""));
    // the load stops at one of the four fractions, or reaches the sensitivity
    if focal.Success? && stop.Success? && time.Success? && bias.Success? {
    }
  }

  /** The EXIF data block touches neither the file data, the enumerations, the lens, the serial number nor the date. */
  lemma ExifStepFrame(props: map<string, string>, rec: Record)
    ensures var r := ExifStep(props, rec).rec;
      r.file == rec.file && r.settings == rec.settings && r.datetime == rec.datetime
      && r.camera.lens == rec.camera.lens && r.camera.cameraSerial == rec.camera.cameraSerial
  {
    ExifValueStepFrame(props, rec);
  }

  /** The enumerations block touches only the enumeration attributes. */
  lemma EnumStepFrame(props: map<string, string>, tables: ExifTables, rec: Record)
    ensures EnumStep(props, tables, rec).rec == rec.(settings := EnumStep(props, tables, rec).rec.settings)
  {
  }

  /** The raw-file block touches neither the file data, the enumerations nor the date. */
  lemma RawStepFrame(props: map<string, string>, rec: Record)
    ensures var r := RawStep(props, rec).rec;
      r.file == rec.file && r.settings == rec.settings && r.datetime == rec.datetime
  {
  }

  // ---------------------------------------------------------------------------
  // What a load does

  /**
   * The file data is always taken from the dump, even when a later conversion
   * raises; the date is read only when nothing raised, and is then the
   * earliest date of the date tags.
   */
  lemma LoadSetsFileDataAndDate(doc: Document, tables: ExifTables, prev: Record)
    ensures var (r, err) := Load(doc, tables, prev);
      r.file == FileStep(ImageOf(doc))
      && r.datetime == (if err.None? then EarliestDate(PropertiesOf(ImageOf(doc)), DateTags) else prev.datetime)
  {
    var img := ImageOf(doc);
    var props := PropertiesOf(img);
    var r0 := prev.(file := FileStep(img));
    ExifStepFrame(props, r0);
    var e := ExifStep(props, r0);
    if e.Running? {
      EnumStepFrame(props, tables, e.rec);
      var n := EnumStep(props, tables, e.rec);
      if n.Running? {
        RawStepFrame(props, n.rec);
      }
    }
  }

  /** Missing geometry members and a missing depth read as 0 (`.get(..., 0)`), whatever else the load does. */
  lemma LoadGeometryDefaults(doc: Document, tables: ExifTables, prev: Record)
    ensures var r := Load(doc, tables, prev).0;
      var img := ImageOf(doc);
      (GeometryOf(img).width.None? ==> r.file.width == 0)
      && (GeometryOf(img).height.None? ==> r.file.height == 0)
      && (img.depth.None? ==> r.file.depth == 0)
  {
    LoadSetsFileDataAndDate(doc, tables, prev);
  }

  /** With EXIF keys but no sensitivity key, a successful load reads the sensitivity as `int('0')`, that is 0. */
  lemma LoadSensitivityDefault(doc: Document, tables: ExifTables, prev: Record)
    requires |ExifKeys(PropertiesOf(ImageOf(doc)))| >= 1
    requires "exif:PhotographicSensitivity" !in PropertiesOf(ImageOf(doc))
    requires Load(doc, tables, prev).1.None?
    ensures Load(doc, tables, prev).0.exposure.iso == 0
  {
    LoadWithExifKeys(doc, tables, prev);
    ToIntOfZero();
  }

  /**
   * With at least one EXIF key the raw-file block does not run: the lens and
   * the serial number keep the values they had, and after a successful load
   * the EXIF attributes hold the converted EXIF values.
   */
  lemma LoadWithExifKeys(doc: Document, tables: ExifTables, prev: Record)
    requires |ExifKeys(PropertiesOf(ImageOf(doc)))| >= 1
    ensures var (r, err) := Load(doc, tables, prev);
      r.camera.lens == prev.camera.lens && r.camera.cameraSerial == prev.camera.cameraSerial
    ensures var (r, err) := Load(doc, tables, prev);
      var props := PropertiesOf(ImageOf(doc));
      err.None? ==>
        FractVal(Get(props, "exif:FocalLength", "")).Success?
        && r.exposure.focalLength == FractVal(Get(props, "exif:FocalLength", "")).value
        && FractVal(Get(props, "exif:FNumber", "")).Success?
        && r.exposure.fStop == FractVal(Get(props, "exif:FNumber", "")).value
        && FractVal(Get(props, "exif:ExposureTime", "")).Success?
        && r.exposure.expTime == FractVal(Get(props, "exif:ExposureTime", "")).value
        && r.exposure.shutter == Get(props, "exif:ExposureTime", "")
        && FractVal(Get(props, "exif:ExposureBiasValue", "")).Success?
        && r.exposure.expBias == FractVal(Get(props, "exif:ExposureBiasValue", "")).value
        && ToInt(Get(props, "exif:PhotographicSensitivity", "0")).Success?
        && r.exposure.iso == ToInt(Get(props, "exif:PhotographicSensitivity", "0")).value
        && r.camera.cameraMake == Get(props, "exif:Make", "")
        && r.camera.cameraModel == Get(props, "exif:Model", "")
  {
    var img := ImageOf(doc);
    var props := PropertiesOf(img);
    var r0 := prev.(file := FileStep(img));
    ExifStepFrame(props, r0);
    var e := ExifStep(props, r0);
    if e.Running? {
      EnumStepFrame(props, tables, e.rec);
    }
  }

  /**
   * Without EXIF keys a successful load ends with the raw-file values: the
   * dng values converted, their defaults where a key is absent, and the
   * camera block rewritten from the dng keys.
   */
  lemma LoadWithoutExifKeys(doc: Document, tables: ExifTables, prev: Record)
    requires |ExifKeys(PropertiesOf(ImageOf(doc)))| < 1
    ensures var (r, err) := Load(doc, tables, prev);
      var props := PropertiesOf(ImageOf(doc));
      err.None? ==>
        FloatOr(props, "dng:ocal.length", 0.0).Success?
        && r.exposure.focalLength == Some(FloatOr(props, "dng:ocal.length", 0.0).value)
        && FloatOr(props, "dng:f.number", 0.0).Success?
        && r.exposure.fStop == Some(FloatOr(props, "dng:f.number", 0.0).value)
        && FloatToIntOr(props, "dng:iso.setting", 0).Success?
        && r.exposure.iso == FloatToIntOr(props, "dng:iso.setting", 0).value
        && FractVal(Get(props, "dng:exposure.time", "")).Success?
        && r.exposure.expTime == FractVal(Get(props, "dng:exposure.time", "")).value
        && r.exposure.shutter == Get(props, "dng:exposure.time", "0")
        && r.camera == Camera(Get(props, "dng:make", ""), Get(props, "dng:camera.model.name", ""),
                              Get(props, "dng:lens", ""), Some(SerialNumber(props)))
  {
  }

  /** The attribute of an enumeration after its block: decoded from its key when present, `before` otherwise. */
  predicate DecodedOrKept(props: map<string, string>, key: string, enumName: string, table: map<int, string>,
                          before: string, after: string) {
    if key in props then DecodeEnum(enumName, table, props[key]) == Success(after) else after == before
  }

  /** The two flash attributes after their block. */
  predicate FlashDecodedOrKept(props: map<string, string>, table: map<int, FlashDecoding>, before: Settings, after: Settings) {
    if "exif:Flash" in props then
      DecodeFlash(table, props["exif:Flash"]).Success?
      && after.flashFired == BoolText(DecodeFlash(table, props["exif:Flash"]).value.fired)
      && after.flashMode == DecodeFlash(table, props["exif:Flash"]).value.mode
    else after.flashFired == before.flashFired && after.flashMode == before.flashMode
  }

  /** Every enumeration attribute decoded from its key, or kept where the key is absent. */
  predicate EnumsDecoded(props: map<string, string>, tables: ExifTables, before: Settings, after: Settings) {
    DecodedOrKept(props, "exif:ExposureMode", "ExposureMode", tables.exposureMode, before.expMode, after.expMode)
    && DecodedOrKept(props, "exif:ExposureProgram", "ExposureProgram", tables.exposureProgram, before.expProgram, after.expProgram)
    && DecodedOrKept(props, "exif:WhiteBalance", "WhiteBalance", tables.whiteBalance, before.whiteBalance, after.whiteBalance)
    && DecodedOrKept(props, "exif:MeteringMode", "MeteringMode", tables.meteringMode, before.meteringMode, after.meteringMode)
    && FlashDecodedOrKept(props, tables.flash, before, after)
  }

  lemma ExposureEnumStepDecodes(props: map<string, string>, tables: ExifTables, rec: Record)
    requires ExposureEnumStep(props, tables, rec).Running?
    ensures var after := ExposureEnumStep(props, tables, rec).rec.settings;
      DecodedOrKept(props, "exif:ExposureMode", "ExposureMode", tables.exposureMode, rec.settings.expMode, after.expMode)
      && DecodedOrKept(props, "exif:ExposureProgram", "ExposureProgram", tables.exposureProgram, rec.settings.expProgram, after.expProgram)
      && DecodedOrKept(props, "exif:WhiteBalance", "WhiteBalance", tables.whiteBalance, rec.settings.whiteBalance, after.whiteBalance)
      && after == rec.settings.(expMode := after.expMode, expProgram := after.expProgram, whiteBalance := after.whiteBalance)
  {
  }

  lemma MeteringEnumStepDecodes(props: map<string, string>, tables: ExifTables, rec: Record)
    requires MeteringEnumStep(props, tables, rec).Running?
    ensures var after := MeteringEnumStep(props, tables, rec).rec.settings;
      DecodedOrKept(props, "exif:MeteringMode", "MeteringMode", tables.meteringMode, rec.settings.meteringMode, after.meteringMode)
      && FlashDecodedOrKept(props, tables.flash, rec.settings, after)
      && after == rec.settings.(meteringMode := after.meteringMode, flashFired := after.flashFired, flashMode := after.flashMode)
  {
  }

  /** A successful enumerations block decodes every enumeration whose key is present and keeps the others. */
  lemma EnumStepDecodes(props: map<string, string>, tables: ExifTables, rec: Record)
    requires EnumStep(props, tables, rec).Running?
    ensures EnumsDecoded(props, tables, rec.settings, EnumStep(props, tables, rec).rec.settings)
  {
    ExposureEnumStepDecodes(props, tables, rec);
    MeteringEnumStepDecodes(props, tables, ExposureEnumStep(props, tables, rec).rec);
  }

  /**
   * After a successful load an enumeration attribute whose key is absent keeps
   * its value, and one whose key is present holds the name its code decodes to.
   */
  lemma LoadEnumerations(doc: Document, tables: ExifTables, prev: Record)
    requires Load(doc, tables, prev).1.None?
    ensures EnumsDecoded(PropertiesOf(ImageOf(doc)), tables, prev.settings, Load(doc, tables, prev).0.settings)
  {
    var img := ImageOf(doc);
    var props := PropertiesOf(img);
    var r0 := prev.(file := FileStep(img));
    ExifStepFrame(props, r0);
    var e := ExifStep(props, r0);
    EnumStepDecodes(props, tables, e.rec);
    var n := EnumStep(props, tables, e.rec);
    if |ExifKeys(props)| < 1 {
      RawStepFrame(props, n.rec);
    }
  }

  /** A focal length that does not convert stops the load right after the file data. */
  lemma LoadStopsAtFocalLength(doc: Document, tables: ExifTables, prev: Record)
    requires FractVal(Get(PropertiesOf(ImageOf(doc)), "exif:FocalLength", "")).Failure?
    ensures Load(doc, tables, prev)
      == (prev.(file := FileStep(ImageOf(doc))),
          Some(FractVal(Get(PropertiesOf(ImageOf(doc)), "exif:FocalLength", "")).error))
  {
  }

  /**
   * A dump without properties: the EXIF values are cleared, the raw-file
   * defaults follow, the enumerations keep their values and there is no date.
   */
  lemma LoadWithoutProperties(doc: Document, tables: ExifTables, prev: Record)
    requires PropertiesOf(ImageOf(doc)) == map[]
    ensures Load(doc, tables, prev)
      == (prev.(file := FileStep(ImageOf(doc)),
                exposure := prev.exposure.(focalLength := Some(0.0), fStop := Some(0.0), expTime := None,
                                           shutter := "0", expBias := None, iso := 0),
                camera := Camera("", "", "", Some(None)),
                datetime := None),
          None)
  {
    var props: map<string, string> := map[];
    ToIntOfZero();
    assert ExifKeys(props) == {};
    EarliestDateIsMinimum(props, DateTags);
  }
}
