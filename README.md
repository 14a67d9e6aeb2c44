# Photograph metadata loader

A model of how the photo library fills in a photograph's catalogue record
from an ImageMagick JSON dump (`Photograph.loadJSON` in
`model/photograph.py`). The loader runs in order:

- It takes the file data (signature, full path, size, base name) and the
  format. The format is upper-cased and trimmed, and the mimetype comes from it.
- It takes the image geometry and the bit depth.
- It reads the EXIF values. Focal length, f-number, exposure time and
  exposure bias go through the fraction reader `_exifFractVal`. The
  sensitivity goes through `int()`. It also reads the camera make and model.
- It decodes the EXIF enumerations: exposure mode, exposure program, white
  balance, metering mode and flash. Each is decoded only when its key is
  present.
- When no property key starts with `exif:` in any letter case, it overwrites
  the exposure and camera attributes from the raw-file (`dng:`) keys. The
  focal length is read from the key `dng:ocal.length`, exactly as the code
  spells it.
- It finds the capture date (`_getDateTime`). Six date tags are tried in a
  fixed order, each cut at its first `+`. Each is read with the EXIF form
  `%Y:%m:%d %H:%M:%S` and then the ISO form `%Y-%m-%dT%H:%M:%S`. The earliest
  date that parsed is kept.

A conversion that raises (`ValueError`, `ZeroDivisionError`, an unknown
enumeration code) stops the load. The attributes assigned before it keep
their new values. The model keeps exactly that partial state.

The modules follow the loader's parts:

- `Text`: the `str` operations used, `os.path.basename`.
- `Numbers`: `int()` and `float()` on decimal literals.
- `MimeTypes`
- `ExifValues`: the conversions, `_exifFractVal`, the key split, enumeration decoding.
- `Documents`: the parsed dump.
- `DateTimes`: `strptime` for the six directives used, and `_getDateTime`.
- `Photographs`: the record, the specification function `Load`, and the class `Photograph`.

`Photographs.Load` is the load as a function of the dump and the previous
attributes. It returns the attributes afterwards and the exception raised,
if any. The class `Photograph` holds the attributes as fields in four blocks
(file, exposure, settings, camera) and the date. Its method `LoadJson`
assigns them step by step, as the code does, and is proved to end in the
state `Load` describes. The lemmas after it state what a load does.

Two behaviours of the code that are easy to overlook are modelled as written:
- The raw-file exposure time goes through the fraction reader
  `_exifFractVal` (`model/photograph.py:197`), like the EXIF exposure time.
- A fraction piece that `float()` does not read raises `ValueError`; it
  stops the load (`model/photograph.py:84-86`).

`int()` and `float()` skip whitespace around a literal, but not the four
separator controls U+001C..U+001F that `str.strip()` and `isspace()` count as
whitespace. The model keeps the two apart: `Text.Strip` is `str.strip()`,
and `Numbers.Trim` is what the number parsers skip.

## Model

| member | source | states |
|---|---|---|
| Text.Strip | model/photograph.py:139 | `strip()` leaves no whitespace at either end, is no longer than its input, and keeps only the input's characters |
| Text.Lower | model/photograph.py:131 | `lower()` keeps the length and maps every character by itself to its lower-case form |
| Text.StripIsSlice | model/photograph.py:139 | what `strip()` keeps is one contiguous part of the text, starting where `lstrip()` starts |
| Text.StripEmptyIffBlank | model/photograph.py:78-79 | a piece strips to the empty text exactly when it is all whitespace, so exactly then it is dropped |
| Text.StripPadding | model/photograph.py:139 | `strip()` removes exactly the whitespace around a trimmed text |
| Text.StripLeftIsSuffix | model/photograph.py:139 | `lstrip()` keeps a suffix of the text and drops only whitespace before it |
| Text.StripRightIsPrefix | model/photograph.py:139 | `rstrip()` keeps a prefix of the text and drops only whitespace after it |
| Text.Upper | model/photograph.py:139 | `upper()` maps every character and leaves no lower-case letter |
| Text.UpperOfLower | model/photograph.py:139 | upper-casing after lower-casing is upper-casing |
| Text.Split | model/photograph.py:78 | `split(sep)` yields at least one piece, no piece holds the separator, and joining the pieces with the separator gives the text back |
| Text.SplitJoin | model/photograph.py:78 | splitting the join of separator-free pieces gives the pieces back |
| Text.FirstPiece | model/photograph.py:105 | `split('+')[0]` is the text cut just before its first `+`, or all of it |
| Text.Find | model/photograph.py:131 | no contract of its own: `find(sub)`, the first index where `sub` starts or -1; stated by FindZeroIffPrefix |
| Text.FindZeroIffPrefix | model/photograph.py:131 | `find(sub) == 0` exactly when the text starts with `sub` |
| Text.Basename | model/photograph.py:138 | the base name holds no `/` and is no longer than the path |
| Text.BasenameIsLastPart | model/photograph.py:138 | the base name is the suffix after the last `/`, or the whole path when it has none |
| Numbers.TrimSplits | model/photograph.py:164 | a text is the whitespace `int()` skips at its start, the text between, and the whitespace `int()` skips at its end |
| Numbers.TrimOfTrimmed | model/photograph.py:164 | a text with no whitespace at either end is read as it is |
| Numbers.IntToString | model/photograph.py:164 | no contract of its own: `str(i)`, a `-` before the decimal digits of a negative number; stated by ParseIntRoundTrip and ParseRealRoundTrip |
| Numbers.ParseInt | model/photograph.py:164 | no contract of its own: `int()` of an optionally signed run of ASCII digits between skipped whitespace, None otherwise; stated by ParseIntRoundTrip and ParseIntThenParseReal |
| Numbers.ParseReal | model/photograph.py:84-86 | no contract of its own: `float()` of an optionally signed decimal literal between skipped whitespace, None otherwise; stated by ParseRealRoundTrip, ParseRealOfStripped and ExifValues.FractValOfNumber |
| Numbers.ParseIntRoundTrip | model/photograph.py:164 | `int(str(i)) == i` for every integer |
| Numbers.ParseIntThenParseReal | model/photograph.py:196 | every text `int()` reads, `float()` reads with the same value |
| Numbers.ParseRealRoundTrip | model/photograph.py:84 | `float(str(i)) == i` for every integer |
| Numbers.ParseRealOfStripped | model/photograph.py:78-84 | a text `float()` reads is, after `strip()`, exactly its literal, and `float()` reads the same value from it |
| Numbers.DigitsValueFront | model/photograph.py:84 | the value of a digit run is its first digit times ten to the number of digits after it, plus the value of the rest |
| Numbers.FractionValueIsQuotient | model/photograph.py:84 | the digits after a decimal point stand for their integer value over ten to their count |
| Numbers.UnsignedDecimalOfPointed | model/photograph.py:84 | a digit run, a point and a digit run, not both empty, read as the whole part plus the fraction |
| Numbers.ParseRealOfPointed | model/photograph.py:84 | `float("w.f")` with a non-empty whole part `w` reads the whole part plus the fraction |
| Numbers.ParseRealOfDecimal | model/photograph.py:84-86 | `float(str(w) + "." + f)` is `w` plus the digits `f` over `10^|f|`, so `"2.8"` reads as 2.8 and `"28"` over `"10"` in FractValOfQuotient is a quotient of these values |
| Numbers.Truncate | model/photograph.py:196 | `int(x)` of a float rounds toward zero: the result is within one of `x`, on the side of zero |
| MimeTypes.MimeType | model/photograph.py:142-151 | no contract of its own: the chain of format tests; stated by MimeTypesOfPlainFormats, MimeTypesOfIrregularNames, MimeTypesOfCanonRawFormats, MimeTypeUnknown, MimeTypeRoundTrip and MimeTypeInjective |
| MimeTypes.NormalizeFormat | model/photograph.py:139 | the normalized format has no whitespace at either end and no lower-case letter |
| MimeTypes.NormalizeFormatIdempotent | model/photograph.py:139 | normalizing a normalized format changes nothing |
| MimeTypes.NormalizeFormatIgnoresCase | model/photograph.py:139 | the letter case of the raw format does not matter |
| MimeTypes.MimeTypesOfPlainFormats | model/photograph.py:142-143 | JPEG, GIF, PNG, TIFF and BMP map to `image/` and the lower-cased name |
| MimeTypes.MimeTypesOfIrregularNames | model/photograph.py:144-147 | JPG maps to `image/JPG` and TIF to `image/tiff` |
| MimeTypes.MimeTypesOfCanonRawFormats | model/photograph.py:148-149 | CRAW, CR2 and CR3 map to `image/x-canon-` and the lower-cased name |
| MimeTypes.MimeTypeUnknown | model/photograph.py:150-151 | a format maps to `unknown` exactly when it is none of the ten recognised names |
| MimeTypes.MimeTypeRoundTrip | model/photograph.py:142-149 | the format can be read back from its mimetype, for every recognised name except TIF |
| MimeTypes.MimeTypeInjective | model/photograph.py:142-151 | two formats with the same known mimetype are equal, except that TIF and TIFF share one |
| MimeTypes.PaddedLowerCaseJpeg | model/photograph.py:139-143 | the raw format `" jpeg "` normalizes to JPEG and gets `image/jpeg` |
| ExifValues.ToFloat | model/photograph.py:84-86 | no contract of its own: `float(s)`, raising ValueError with the text where ParseReal reads nothing; stated through ParseReal's lemmas |
| ExifValues.ToInt | model/photograph.py:164 | no contract of its own: `int(s)`, raising ValueError with the text where ParseInt reads nothing; stated by ToIntOfZero and DecodeEnumOfCode |
| ExifValues.FloatToInt | model/photograph.py:196 | no contract of its own: `int(float(s))`, truncating toward zero as Numbers.Truncate states; stated by Photographs.FloatOrMatchesGet |
| ExifValues.DropEmpty | model/photograph.py:79 | a piece is kept exactly when it is a non-empty piece of the input, and no more pieces come out than went in |
| ExifValues.DropEmptyAppend | model/photograph.py:79 | filtering keeps the order: the kept pieces of two lists joined are those of the first, then those of the second |
| ExifValues.FractPieces | model/photograph.py:78-79 | no contract of its own: the pieces `split('/')` gives, stripped, empty ones dropped; stated by FractPiecesEmptyIffBlank, FractValIsPiecesValue and FractValIgnoresLeadingSlash |
| ExifValues.PiecesValue | model/photograph.py:81-86 | no contract of its own: none for no piece, the first piece read, or the first over the second; stated by the FractVal lemmas |
| ExifValues.FractVal | model/photograph.py:77-86 | no contract of its own: `_exifFractVal`; stated by FractValIsPiecesValue, FractValNoneIffBlank, FractValOfNumber, FractValOfQuotient, FractValOfNonNumber, FractValOfNonNumberPair, FractValIgnoresRest and FractValIgnoresLeadingSlash |
| ExifValues.FractValIsPiecesValue | model/photograph.py:77-86 | reading the empty text directly agrees with splitting, stripping and filtering it |
| ExifValues.FractValNoneIffBlank | model/photograph.py:78-82 | `_exifFractVal` returns None exactly when the text holds only slashes and whitespace |
| ExifValues.FractValOfNumber | model/photograph.py:78-84 | a text without a slash that `float()` reads as `r` (such as `" 2.8 "` or `"+1"`) reads as `r` |
| ExifValues.FractValOfQuotient | model/photograph.py:78-86 | `x/y` with texts `float()` reads as `p` and `q` (such as `" 28 / 10 "` or `"0.5/1"`) reads as `p / q`, and raises ZeroDivisionError when `q` is zero |
| ExifValues.FractValIgnoresRest | model/photograph.py:85-86 | with two numbers, whatever follows a second slash is ignored |
| ExifValues.FractValIgnoresLeadingSlash | model/photograph.py:78-79 | a leading slash yields an empty piece that is dropped, so it changes nothing |
| ExifValues.FractValOfNonNumber | model/photograph.py:83-84 | a single non-blank piece whose stripped text `float()` does not read raises ValueError instead of reading as None |
| ExifValues.FractValOfNonNumberPair | model/photograph.py:85-86 | in `x/y` a first piece `float()` does not read raises ValueError; when the first reads, an unreadable second piece raises ValueError |
| ExifValues.FractPiecesEmptyIffBlank | model/photograph.py:78-81 | no piece survives exactly when the text holds only slashes and whitespace |
| ExifValues.ExifKeys | model/photograph.py:131 | no contract of its own: the property keys whose lower-cased text starts with `exif:`; stated by KeysPartition, ExifKeyIffPrefix and ExifPrefixIsExifKey |
| ExifValues.OtherKeys | model/photograph.py:132 | no contract of its own: the remaining property keys; stated by KeysPartition |
| ExifValues.KeysPartition | model/photograph.py:131-132 | the EXIF keys and the other keys are disjoint and together are all property keys |
| ExifValues.ExifKeyIffPrefix | model/photograph.py:131 | a key is an EXIF key exactly when its first five characters spell `exif:` ignoring case |
| ExifValues.ExifPrefixIsExifKey | model/photograph.py:131 | every key written `exif:...` is an EXIF key |
| ExifValues.IsExifKey | model/photograph.py:131 | no contract of its own: `k.lower().find('exif:') == 0`; stated by ExifKeyIffPrefix and ExifPrefixIsExifKey |
| ExifValues.DecodeEnum | model/photograph.py:171-181 | a decoded enumeration attribute is a member name of its enumeration |
| ExifValues.DecodeFlash | model/photograph.py:183-186 | a decoded flash value is one the flash enumeration has |
| ExifValues.DecodeEnumOfCode | model/photograph.py:171-181 | the text of a code decodes to the enumeration's member name for that code, and raises when the enumeration has no member with it |
| ExifValues.DecodeFlashOfCode | model/photograph.py:183-186 | the text of a flash code decodes to the flash value for that code, and raises when the enumeration has none |
| ExifValues.BoolText | model/photograph.py:185 | no contract of its own: `str()` of a boolean, `True` or `False`; stated by Photographs.MeteringEnumStepDecodes and LoadEnumerations, which say the flash attribute holds this text of whether the flash fired |
| ExifValues.ToIntOfZero | model/photograph.py:164 | the lookup default `'0'` converts to 0 |
| DateTimes.Before | model/photograph.py:119 | no contract of its own: `<` on dates, field by field from the year down; stated by NotAfterIsTotalOrder and Earliest |
| DateTimes.NotAfter | model/photograph.py:119 | no contract of its own: `<=` on dates, not later; stated by NotAfterIsTotalOrder and Earliest |
| DateTimes.NotAfterIsTotalOrder | model/photograph.py:119 | the order `dates.sort()` uses is reflexive, total, antisymmetric and transitive |
| DateTimes.Strptime | model/photograph.py:111 | every date `strptime` returns is a valid calendar date |
| DateTimes.Match | model/photograph.py:111 | no contract of its own: the format's directives and literal characters read from the text in turn, with the text left over; stated by MatchRender, and through Strptime by FormatRoundTrip and FormatsExclusive |
| DateTimes.MatchRender | model/photograph.py:111 | matching a well-formed format against a date written in it reads back every field the format names, with nothing left over |
| DateTimes.FormatRoundTrip | model/photograph.py:98 | a valid date written in either of the two formats is read back as itself by `strptime` with that format |
| DateTimes.FormatsExclusive | model/photograph.py:98 | no text reads as a date in both formats |
| DateTimes.FirstParse | model/photograph.py:107-114 | the inner loop's result is that of the first format that reads the text, every earlier one failing, and None exactly when every format fails |
| DateTimes.ParseDate | model/photograph.py:107-114 | no contract of its own: the two formats tried in order; stated by FirstParse, ParseDateOrderIrrelevant and ParseDateRoundTrip |
| DateTimes.ParseDateOrderIrrelevant | model/photograph.py:109-114 | trying the ISO form first would read the same dates |
| DateTimes.ParseDateRoundTrip | model/photograph.py:109-114 | a valid date written in either form is read back as itself |
| DateTimes.TagDate | model/photograph.py:103-114 | no contract of its own: a present tag's text cut at its first `+` and parsed, None for an absent tag; stated by TagDateIgnoresZone |
| DateTimes.TagDateIgnoresZone | model/photograph.py:105 | whatever follows the first `+` of a tag's text is ignored |
| DateTimes.Candidates | model/photograph.py:100-116 | no contract of its own: the dates the tags hold, in tag order; stated by CandidatesAreTagDates |
| DateTimes.CandidatesAreTagDates | model/photograph.py:102-116 | the dates collected are exactly the dates the present tags hold |
| DateTimes.Earliest | model/photograph.py:119-121 | `sorted(dates)[0]` is one of the dates and none is earlier |
| DateTimes.EarliestDate | model/photograph.py:119-121 | no contract of its own: the earliest collected date, None when there is none; stated by EarliestDateIsMinimum, EarliestDateIgnoresTagOrder and GetDateTime |
| DateTimes.EarliestDateIsMinimum | model/photograph.py:100-121 | the date is None exactly when no tag holds a readable date; otherwise some tag holds it and no tag holds an earlier one |
| DateTimes.EarliestDateIgnoresTagOrder | model/photograph.py:93-96 | the order of the tags plays no part in the result |
| DateTimes.EarlierLowPriorityTagWins | model/photograph.py:93-121 | an original capture date loses to an earlier creation date with a time zone offset, although its tag comes first |
| DateTimes.GetDateTime | model/photograph.py:90-121 | the two nested loops return the earliest date the tags hold, or None |
| Documents.ImageOf | model/photograph.py:127 | no contract of its own: `jdata.get('image', {})`; stated by Photographs.LoadGeometryDefaults and LoadWithoutProperties |
| Documents.GeometryOf | model/photograph.py:128 | no contract of its own: `img.get('geometry', {})`; stated by Photographs.LoadGeometryDefaults |
| Documents.PropertiesOf | model/photograph.py:129 | no contract of its own: `img.get('properties', {})`, empty when absent; stated by Photographs.LoadWithoutProperties |
| Documents.Get | model/photograph.py:135-198 | no contract of its own: `props.get(key, default)`; stated by Photographs.FloatOrMatchesGet, LoadWithExifKeys and LoadWithoutExifKeys |
| Photographs.FileStep | model/photograph.py:134-156 | no contract of its own: the file and image attributes from the dump; stated by LoadSetsFileDataAndDate and LoadGeometryDefaults |
| Photographs.ExifValueStep | model/photograph.py:159-164 | no contract of its own: focal length, f-number, exposure time and sensitivity converted in source order, stopping at the first that raises; stated by ExifValueStepFrame, LoadWithExifKeys, LoadSensitivityDefault and LoadStopsAtFocalLength |
| Photographs.ExifStep | model/photograph.py:158-166 | no contract of its own: the EXIF values in source order, stopping at the first conversion that raises; stated by ExifStepFrame, ExifValueStepFrame, LoadWithExifKeys and LoadStopsAtFocalLength |
| Photographs.EnumStep | model/photograph.py:170-186 | no contract of its own: each present enumeration decoded in source order; stated by EnumStepDecodes and EnumStepFrame |
| Photographs.ExposureEnumStep | model/photograph.py:170-178 | no contract of its own: exposure mode, exposure program and white balance decoded when present; stated by ExposureEnumStepDecodes |
| Photographs.MeteringEnumStep | model/photograph.py:180-186 | no contract of its own: metering mode and flash decoded when present; stated by MeteringEnumStepDecodes |
| Photographs.RawStep | model/photograph.py:188-198 | no contract of its own: the raw-file values with their defaults; stated by RawStepFrame, LoadWithoutExifKeys and FloatOrMatchesGet |
| Photographs.SerialNumber | model/photograph.py:195 | no contract of its own: the `dng:serial.number` text, or None when the key is absent; stated by LoadWithExifKeys and LoadWithoutExifKeys |
| Photographs.FloatOr | model/photograph.py:190-191 | no contract of its own: `float(props.get(key, default))` for a default reading as `d`; stated by FloatOrMatchesGet |
| Photographs.FloatToIntOr | model/photograph.py:196 | no contract of its own: `int(float(props.get(key, default)))` for a default reading as `d`; stated by FloatOrMatchesGet |
| Photographs.ValueSteps | model/photograph.py:158-198 | no contract of its own: the EXIF block, the enumerations block, and the raw-file block only when `len(exif_keys) < 1` (line 189); stated by LoadWithExifKeys, LoadWithoutExifKeys, LoadEnumerations, ExifStepFrame, EnumStepFrame and RawStepFrame |
| Photographs.Load | model/photograph.py:69-201 | no contract of its own: the steps in order, then the date; stated by LoadSetsFileDataAndDate, LoadWithExifKeys, LoadWithoutExifKeys, LoadEnumerations, LoadGeometryDefaults, LoadSensitivityDefault, LoadStopsAtFocalLength and LoadWithoutProperties, and implemented by Photograph.LoadJson |
| Photographs.Photograph.constructor | model/photograph.py:6-34 | a new photograph holds the initial attributes |
| Photographs.Photograph.LoadJson | model/photograph.py:69-201 | the attributes after the load, and the exception raised, are those `Load` gives for the dump and the attributes before it |
| Photographs.Photograph.LoadFileData | model/photograph.py:134-156 | only the file block changes, and it becomes the file data taken from the dump |
| Photographs.Photograph.LoadExifData | model/photograph.py:158-166 | the state and the exception are those of the EXIF step |
| Photographs.Photograph.LoadExifEnums | model/photograph.py:170-186 | the state and the exception are those of the enumerations step |
| Photographs.Photograph.LoadExposureEnums | model/photograph.py:170-178 | the state and the exception are those of the exposure-mode, exposure-program and white-balance decoding |
| Photographs.Photograph.LoadMeteringEnums | model/photograph.py:180-186 | the state and the exception are those of the metering-mode and flash decoding |
| Photographs.Photograph.LoadRawData | model/photograph.py:188-198 | the state and the exception are those of the raw-file step |
| Photographs.FloatOrMatchesGet | model/photograph.py:190-196 | converting a present key's value and taking 0 for an absent one is `float(props.get(key, '0.0'))` and `int(float(props.get(key, '0')))` |
| Photographs.ExifValueStepFrame | model/photograph.py:159-164 | the EXIF values change only the exposure block |
| Photographs.ExifStepFrame | model/photograph.py:158-166 | the EXIF block leaves the file data, the enumerations, the lens, the serial number and the date alone |
| Photographs.EnumStepFrame | model/photograph.py:170-186 | the enumerations block changes only the enumeration attributes |
| Photographs.RawStepFrame | model/photograph.py:188-198 | the raw-file block leaves the file data, the enumerations and the date alone |
| Photographs.ExposureEnumStepDecodes | model/photograph.py:170-178 | each of the three enumerations is decoded from its key when present and kept otherwise; metering and flash are untouched |
| Photographs.MeteringEnumStepDecodes | model/photograph.py:180-186 | metering mode and flash are decoded from their keys when present and kept otherwise; the other enumerations are untouched |
| Photographs.EnumStepDecodes | model/photograph.py:170-186 | a successful enumerations block decodes every enumeration whose key is present and keeps the others |
| Photographs.LoadSetsFileDataAndDate | model/photograph.py:134-201 | the file data is set even when a later conversion raises; the date is the earliest tag date after a successful load, and unchanged after a failed one |
| Photographs.LoadGeometryDefaults | model/photograph.py:154-156 | a missing width, height or depth is 0 after the load, whatever else happens |
| Photographs.LoadSensitivityDefault | model/photograph.py:164 | with EXIF keys but no sensitivity key, a successful load sets the sensitivity to 0 |
| Photographs.LoadWithExifKeys | model/photograph.py:158-198 | with an EXIF key present, the lens and the serial number are unchanged, and a successful load holds the converted EXIF values, make and model |
| Photographs.LoadWithoutExifKeys | model/photograph.py:189-198 | without EXIF keys, a successful load holds the raw-file values: the dng conversions, their defaults, the shutter text and the camera block from the dng keys |
| Photographs.LoadEnumerations | model/photograph.py:170-186 | after a successful load, an enumeration attribute holds the name its code decodes to when its key is present, and its old value otherwise |
| Photographs.LoadStopsAtFocalLength | model/photograph.py:159 | a focal length that does not convert raises right after the file data, with nothing else changed |
| Photographs.LoadWithoutProperties | model/photograph.py:127-201 | a dump without properties clears the EXIF values, then applies the raw-file defaults (0.0, 0, `'0'`, empty texts), keeps the enumerations and finds no date |

## Left out

- `json.loads` of a text dump and the stored copy `metadata_json`. The model starts from a dump that is already parsed.
- The JSON member types: the dump's members are taken to have the types the loader expects (texts for properties, name, format and size; integers for geometry and depth). A member of another type, which would make Python raise or store it as it is, is not modelled.
- Floating point: `float()` results and the division in `_exifFractVal` are exact reals, with no rounding, overflow, infinities or NaN.
- Numbers.ParseReal: reads decimal literals with an optional sign and point only, between whitespace that `Numbers.IsNumberSpace` accepts. Exponents, `inf`, `nan`, underscores and non-ASCII digits are not accepted, although Python's `float()` accepts them.
- Numbers.ParseInt: non-ASCII digits and underscores are not accepted, although Python's `int()` accepts them.
- The `exif` package's enumerations (`ExposureMode`, `ExposureProgram`, `WhiteBalance`, `MeteringMode`, `Flash`) are not part of this model. They are a parameter, `ExifTables`: partial maps from code to member name, and a code outside a map raises.
- Text.Lower and Text.Upper map ASCII letters only. Python's Unicode case mapping is not modelled.
- Text.IsSpace follows Python's `isspace()` for the characters it lists. Text.Basename treats `/` as the only separator.
- DateTimes.Strptime knows the six directives the two formats use (`%Y %m %d %H %M %S`). Other directives, `%%` and locale-dependent behaviour are not modelled.
- DateTimes.Strptime reads ASCII digits only. Python's `strptime` matches `\d`, which also accepts other Unicode decimal digits (fullwidth `２０２１`, for example), and reads them with `int()`. The model rejects such a date tag, where Python would read it.
- DateTimes.GetDateTime: `dates.sort()` followed by `dates[0]` is modelled as taking the earliest date; the sorted list itself is not built.
- `__str__` and `__repr__` only format the attributes for display.
- `gamma` is set by the constructor and never assigned by the loader. The model leaves it out of the record.
- The attributes are grouped into blocks (file, exposure, settings, camera). Each is still assigned one at a time, except the raw-file camera block: lens, make, model and serial number are written together, since no conversion that could raise lies between them. The enumerations block (`model/photograph.py:170-186`) is one block in the code; the model splits it into `ExposureEnumStep` and `MeteringEnumStep`, and the methods `LoadExposureEnums` and `LoadMeteringEnums`, only to keep each proof small.
- Photographs.Photograph.LoadRawData: the defaulted conversions use `FloatOr` and `FloatToIntOr`, which give the default's value without parsing the literal default text. `Photographs.FloatOrMatchesGet` proves this equal to the code's `float(props.get(key, '0.0'))` and `int(float(props.get(key, '0')))`.
