/**
 * The parsed ImageMagick JSON dump the loader reads: a document with an
 * `image` object holding the file name, size, format, geometry, depth and a
 * flat `properties` dictionary of strings. A member the dump leaves out is
 * None; `dict.get(key, default)` becomes the `Of` functions below.
 */
module Documents {
  import opened Wrappers

  /** `image.geometry` */
  datatype Geometry = Geometry(width: Option<int>, height: Option<int>)

  /** `image` */
  datatype Image = Image(
    name: Option<string>,
    filesize: Option<string>,
    format: Option<string>,
    geometry: Option<Geometry>,
    depth: Option<int>,
    properties: Option<map<string, string>>)

  /** The whole dump. */
  datatype Document = Document(image: Option<Image>)

  /** `{}` read as an image: every member absent. */
  const EmptyImage := Image(None, None, None, None, None, None)

  /** `jdata.get('image', {})` */
  function ImageOf(doc: Document): Image {
    doc.image.GetOr(EmptyImage)
  }

  /** `img.get('geometry', {})` */
  function GeometryOf(img: Image): Geometry {
    img.geometry.GetOr(Geometry(None, None))
  }

  /** `img.get('properties', {})` */
  function PropertiesOf(img: Image): map<string, string> {
    img.properties.GetOr(map[])
  }

  /** `props.get(key, default)` */
  function Get(props: map<string, string>, key: string, default: string): string {
    if key in props then props[key] else default
  }
}
