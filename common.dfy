/**
 * Helpers shared by both cameras (common.go): recognising a request made by data management,
 * and turning the images of one capture into a single image with its metadata.
 */
module Common {
  import opened Wrappers
  import opened CameraTypes

  /** IsFromDataMgmt: `extra` is present and its data-management key holds the boolean true. */
  function IsFromDataMgmt(extra: Option<map<string, Any>>): (r: bool)
    ensures r <==> extra.Some? && FromDMString in extra.value && extra.value[FromDMString].Bool? && extra.value[FromDMString].b
    ensures extra.None? ==> !r
  {
    extra.Some? && FromDMString in extra.value && extra.value[FromDMString] == Bool(true)
  }

  /** Only the data-management key matters: the other entries of `extra` never change the answer. */
  lemma OnlyTheFlagMatters(m: map<string, Any>, other: map<string, Any>)
    requires (FromDMString in m) == (FromDMString in other)
    requires FromDMString in m ==> m[FromDMString] == other[FromDMString]
    ensures IsFromDataMgmt(Some(m)) == IsFromDataMgmt(Some(other))
  {
  }

  /** A missing `extra`, an empty one, an explicit false and a non-boolean value all mean "not
      from data management"; only the boolean true means it is. */
  lemma FromDataMgmtCases(v: Any)
    ensures !IsFromDataMgmt(None)
    ensures !IsFromDataMgmt(Some(map[]))
    ensures !IsFromDataMgmt(Some(map[FromDMString := Bool(false)]))
    ensures IsFromDataMgmt(Some(map[FromDMString := Bool(true)]))
    ensures !v.Bool? ==> !IsFromDataMgmt(Some(map[FromDMString := v]))
  {
  }

  /** What ImagesToImage returns: the encoded bytes, the metadata, and an error, if any. */
  datatype ImageReply = ImageReply(bytes: seq<byte>, meta: ImageMetadata, err: Option<CallError>)

  /** The label appended to the annotations of every image handed out. */
  const FilteredLabel: string := "test_filtered_camera"

  const EmptySliceMessage: string := "NamedImage slice is empty, nothing to turn into an Image"

  /** ImagesToImage: the first image, encoded by `encode` (NamedImage.Bytes), with its MIME type and
      its annotations plus one more classification tag. An empty slice, or a failing encoding,
      gives no bytes, empty metadata and an error. */
  function ImagesToImage(ni: seq<NamedImage>, encode: NamedImage -> Result<seq<byte>, string>): (r: ImageReply)
    ensures r.err.None? <==> |ni| > 0 && encode(ni[0]).Success?
    ensures r.err.Some? ==> r.bytes == [] && r.meta == EmptyImageMetadata
    ensures |ni| == 0 ==> r.err == Some(Failed(EmptySliceMessage))
    ensures r.err.None? ==>
      && r.bytes == encode(ni[0]).value
      && r.meta.mimeType == ni[0].mimeType
      && r.meta.annotations.boundingBoxes == ni[0].annotations.boundingBoxes
      && |r.meta.annotations.classifications| == |ni[0].annotations.classifications| + 1
      && r.meta.annotations.classifications[..|ni[0].annotations.classifications|] == ni[0].annotations.classifications
      && r.meta.annotations.classifications[|ni[0].annotations.classifications|] == Tag(FilteredLabel)
  {
    if |ni| == 0 then
      ImageReply([], EmptyImageMetadata, Some(Failed(EmptySliceMessage)))
    else
      match encode(ni[0])
      case Failure(e) => ImageReply([], EmptyImageMetadata, Some(Failed(e)))
      case Success(bytes) =>
        var annotations := ni[0].annotations;
        var tagged := annotations.(classifications := annotations.classifications + [Tag(FilteredLabel)]);
        ImageReply(bytes, ImageMetadata(ni[0].mimeType, tagged), None)
  }

  /** Only the first image is used: whatever follows it leaves the reply unchanged. */
  lemma OnlyFirstImageUsed(first: NamedImage, rest: seq<NamedImage>, others: seq<NamedImage>, encode: NamedImage -> Result<seq<byte>, string>)
    ensures ImagesToImage([first] + rest, encode) == ImagesToImage([first] + others, encode)
  {
  }
}
