/**
 * The value types the filtered camera borrows from its host robot runtime: named images,
 * response metadata, image annotations, untyped `extra` values, errors, and the 64-bit
 * integer arithmetic of Go's time.Duration.
 */
module CameraTypes {
  import opened Wrappers

  type byte = bv8

  /** Go's int64, the representation of time.Duration. */
  const MinInt64: int := -0x8000_0000_0000_0000
  const MaxInt64: int := 0x7fff_ffff_ffff_ffff
  type Int64 = x: int | MinInt64 <= x <= MaxInt64

  /** Two's-complement wrap-around of a mathematical integer into int64. */
  function Wrap64(x: int): (r: Int64)
    ensures (r - x) % 0x1_0000_0000_0000_0000 == 0
    ensures MinInt64 <= x <= MaxInt64 ==> r == x
  {
    (x - MinInt64) % 0x1_0000_0000_0000_0000 + MinInt64
  }

  /** One second in nanoseconds: time.Second. Timestamps are integers counting nanoseconds,
      with 0 standing for Go's zero time.Time. */
  const Second: int := 1_000_000_000
  const ZeroTime: int := 0

  /** A data.Classification tag on an image (label only; the confidence is optional there and unused here). */
  datatype Tag = Tag(name: string)

  /** A data.BoundingBox annotation. */
  datatype BoundingBox = BoundingBox(name: string, xMin: int, yMin: int, xMax: int, yMax: int)

  /** data.Annotations. */
  datatype Annotations = Annotations(boundingBoxes: seq<BoundingBox>, classifications: seq<Tag>)

  const NoAnnotations := Annotations([], [])

  /** camera.NamedImage: an opaque payload with its source name, MIME type and annotations. */
  datatype NamedImage = NamedImage(sourceName: string, mimeType: string, annotations: Annotations, payload: seq<byte>)

  /** resource.ResponseMetadata. */
  datatype ResponseMetadata = ResponseMetadata(capturedAt: int)

  /** camera.ImageMetadata; the zero value has an empty MIME type and no annotations. */
  datatype ImageMetadata = ImageMetadata(mimeType: string, annotations: Annotations)

  const EmptyImageMetadata := ImageMetadata("", NoAnnotations)

  /** A value held in a Go map[string]interface{}. */
  datatype Any = Bool(b: bool) | Number(n: real) | Text(s: string)

  /** The key data management sets in `extra` on the requests it makes (data.FromDMString). */
  const FromDMString: string := "fromDataManagement"

  /** Errors the camera methods return: data.ErrNoCaptureToStore is the "nothing to deliver"
      sentinel; Failed carries an error from a collaborator; Panic stands for a Go run-time
      panic of a failed type assertion. */
  datatype CallError = NoCaptureToStore | Failed(message: string) | Panic

  /** What camera.Images returns: the images, their metadata and an error, if any.
      A nil slice is the empty sequence. */
  datatype ImagesReply = ImagesReply(imgs: seq<NamedImage>, meta: ResponseMetadata, err: Option<CallError>)

  /** Where a configuration error was found: the component's own path, or entry `index` of its
      vision_services list (Go formats the latter as "<path>.vision-service.<index>"). */
  datatype ConfigPath = At(path: string) | AtService(parent: string, index: nat)

  /** utils.NewConfigValidationFieldRequiredError and utils.NewConfigValidationError. */
  datatype ConfigError = FieldRequired(where: ConfigPath, field: string) | Invalid(where: ConfigPath, reason: string)
}
