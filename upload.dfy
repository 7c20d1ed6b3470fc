/** The type check that `processFile` applies to an uploaded or dropped file. */
module Upload {

  const ImagePrefix: string := "image/"

  /** A file is accepted exactly when its declared MIME type begins with
      "image/": case-sensitive, and any (even empty) subtype will do. */
  function IsImageType(fileType: string): (ok: bool)
    ensures ok <==> |fileType| >= |ImagePrefix| && fileType == ImagePrefix + fileType[|ImagePrefix|..]
  {
    ImagePrefix <= fileType
  }

  /** Every "image/..." type is accepted. */
  lemma AcceptsEveryImageSubtype(subtype: string)
    ensures IsImageType(ImagePrefix + subtype)
  {
  }

  lemma TypeExamples()
    ensures IsImageType("image/png") && IsImageType("image/svg+xml") && IsImageType("image/")
    ensures !IsImageType("text/plain") && !IsImageType("Image/png") && !IsImageType("image") && !IsImageType("")
  {
    AcceptsEveryImageSubtype("png");
    AcceptsEveryImageSubtype("svg+xml");
    AcceptsEveryImageSubtype("");
    assert "text/plain"[0] != ImagePrefix[0];
    assert "Image/png"[0] != ImagePrefix[0];
  }
}
