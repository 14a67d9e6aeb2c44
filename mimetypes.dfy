/** The normalized image format name and the mimetype derived from it. */
module MimeTypes {
  import opened Text

  const PlainImageFormats: set<string> := {"JPEG", "GIF", "PNG", "TIFF", "BMP"}
  const CanonRawFormats: set<string> := {"CRAW", "CR2", "CR3"}
  /** The names that get a mimetype other than "unknown". */
  const KnownFormats: set<string> := PlainImageFormats + CanonRawFormats + {"JPG", "TIF"}

  /** `img.get('format', '').upper().strip()` applied to the raw name. */
  function NormalizeFormat(raw: string): (f: string)
    ensures Trimmed(f) && NoLowerCase(f)
  {
    var u := Upper(raw);
    StripIsSlice(u);
    Strip(u)
  }

  /** The mimetype chosen for a normalized format name. */
  function MimeType(format: string): string {
    if format in PlainImageFormats then "image/" + Lower(format)
    else if format == "JPG" then "image/JPG"
    else if format == "TIF" then "image/tiff"
    else if format in CanonRawFormats then "image/x-canon-" + Lower(format)
    else "unknown"
  }

  /** The five plain image formats: "image/" and the lower-cased name. */
  lemma MimeTypesOfPlainFormats()
    ensures MimeType("JPEG") == "image/jpeg" && MimeType("GIF") == "image/gif"
    ensures MimeType("PNG") == "image/png" && MimeType("TIFF") == "image/tiff"
    ensures MimeType("BMP") == "image/bmp"
  {
    assert MimeType("JPEG") == "image/jpeg" by {
      assert Lower("JPEG") == "jpeg";
    }
    assert MimeType("GIF") == "image/gif" by {
      assert Lower("GIF") == "gif";
    }
    assert MimeType("PNG") == "image/png" by {
      assert Lower("PNG") == "png";
    }
    assert MimeType("TIFF") == "image/tiff" by {
      assert Lower("TIFF") == "tiff";
    }
    assert MimeType("BMP") == "image/bmp" by {
      assert Lower("BMP") == "bmp";
    }
  }

  /** JPG keeps its upper-case spelling and TIF becomes tiff. */
  lemma MimeTypesOfIrregularNames()
    ensures MimeType("JPG") == "image/JPG" && MimeType("TIF") == "image/tiff"
  {
  }

  /** The Canon raw names get the x-canon prefix and the lower-cased name. */
  lemma MimeTypesOfCanonRawFormats()
    ensures MimeType("CRAW") == "image/x-canon-craw" && MimeType("CR2") == "image/x-canon-cr2"
    ensures MimeType("CR3") == "image/x-canon-cr3"
  {
    CanonRawIsNotPlain("CRAW");
    CanonRawIsNotPlain("CR2");
    CanonRawIsNotPlain("CR3");
    assert Lower("CRAW") == "craw";
    assert Lower("CR2") == "cr2";
    assert Lower("CR3") == "cr3";
  }

  /** Every name outside the ten recognised ones, and only those, maps to "unknown". */
  lemma MimeTypeUnknown(format: string)
    ensures format !in KnownFormats <==> MimeType(format) == "unknown"
  {
  }

  lemma {:induction false} KnownFormatsAreUpperCase(f: string)
    requires f in KnownFormats
    ensures NoLowerCase(f)
    ensures f in PlainImageFormats ==> |f| <= 4
  {
  }

  /** Reads the format name back out of a mimetype. */
  function FormatOfMimeType(m: string): string {
    if m == "image/JPG" then "JPG"
    else if |m| >= 14 && m[..14] == "image/x-canon-" then Upper(m[14..])
    else if |m| >= 6 && m[..6] == "image/" then Upper(m[6..])
    else ""
  }

  lemma {:induction false} PlainRoundTrip(f: string)
    requires f in PlainImageFormats
    ensures FormatOfMimeType(MimeType(f)) == f
  {
    KnownFormatsAreUpperCase(f);
    UpperOfLower(f);
    UpperOfUpperCase(f);
    var m := MimeType(f);
    assert m == "image/" + Lower(f);
    assert m[6] == LowerChar(f[0]);
    assert m[..6] == "image/" && m[6..] == Lower(f);
  }

  lemma {:induction false} CanonRawIsNotPlain(f: string)
    requires f in CanonRawFormats
    ensures f !in PlainImageFormats && f != "JPG" && f != "TIF"
  {
    if f == "CRAW" {
      assert f[1] == 'R';
    } else {
      assert |f| == 3;
    }
  }

  lemma {:induction false} CanonRawRoundTrip(f: string)
    requires f in CanonRawFormats
    ensures FormatOfMimeType(MimeType(f)) == f
  {
    CanonRawIsNotPlain(f);
    KnownFormatsAreUpperCase(f);
    UpperOfLower(f);
    UpperOfUpperCase(f);
    var m := MimeType(f);
    assert m == "image/x-canon-" + Lower(f);
    assert m[..14] == "image/x-canon-" && m[14..] == Lower(f);
  }

  /** The format name can be read back from its mimetype, for every recognised name but TIF. */
  lemma {:induction false} MimeTypeRoundTrip(f: string)
    requires f in KnownFormats && f != "TIF"
    ensures FormatOfMimeType(MimeType(f)) == f
  {
    if f in PlainImageFormats {
      PlainRoundTrip(f);
    } else if f in CanonRawFormats {
      CanonRawRoundTrip(f);
    }
  }

  /** Distinct formats get distinct mimetypes, except that TIF and TIFF share one. */
  lemma {:induction false} MimeTypeInjective(f: string, g: string)
    requires MimeType(f) == MimeType(g) != "unknown"
    ensures f == g || (f in {"TIF", "TIFF"} && g in {"TIF", "TIFF"})
  {
    MimeTypeUnknown(f);
    MimeTypeUnknown(g);
    if f != "TIF" && g != "TIF" {
      MimeTypeRoundTrip(f);
      MimeTypeRoundTrip(g);
    } else if f != "TIF" || g != "TIF" {
      var h := if f == "TIF" then g else f;
      MimeTypesOfIrregularNames();
      MimeTypeRoundTrip(h);
      MimeTypeRoundTrip("TIFF");
      MimeTypesOfPlainFormats();
    }
  }

  /** Normalizing twice is normalizing once. */
  lemma {:induction false} NormalizeFormatIdempotent(raw: string)
    ensures NormalizeFormat(NormalizeFormat(raw)) == NormalizeFormat(raw)
  {
    var f := NormalizeFormat(raw);
    UpperOfUpperCase(f);
    StripTrimmed(f);
  }

  /** The case of the raw name does not matter. */
  lemma {:induction false} NormalizeFormatIgnoresCase(raw: string)
    ensures NormalizeFormat(Lower(raw)) == NormalizeFormat(raw)
  {
    UpperOfLower(raw);
  }

  /** `" jpeg "` normalizes to JPEG, whose mimetype is image/jpeg. */
  lemma PaddedLowerCaseJpeg()
    ensures NormalizeFormat(" jpeg ") == "JPEG"
    ensures MimeType(NormalizeFormat(" jpeg ")) == "image/jpeg"
  {
    assert Upper(" jpeg ") == " " + "JPEG" + " ";
    StripPadding(" ", "JPEG", " ");
    MimeTypesOfPlainFormats();
  }
}
