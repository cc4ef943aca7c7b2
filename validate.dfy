/** `image_type_validate`: the upload check in front of the image endpoints. */
module Validate {
  import opened Http

  /** An uploaded file as the framework hands it over. */
  datatype Upload = Upload(filename: string, contentType: string, content: seq<int>)

  const ALLOWED_TYPES: seq<string> := ["image/jpeg", "image/jpg", "image/png"]
  const UNSUPPORTED: string := "Unsupported image format. Please upload a JPEG, JPG, or PNG image."

  /** Returns normally exactly for the three listed content types (compared as
      exact strings) and raises 400 for any other. */
  function ImageTypeValidate(image: Upload): (r: Result<()>)
    ensures r.Ok? <==> image.contentType == "image/jpeg" || image.contentType == "image/jpg" || image.contentType == "image/png"
    ensures r.Err? ==> r.failure == HttpError(BAD_REQUEST_400, UNSUPPORTED)
  {
    if image.contentType !in ALLOWED_TYPES then Err(HttpError(BAD_REQUEST_400, UNSUPPORTED))
    else Ok(())
  }

  /** The check reads the content type only: file name and bytes play no part. */
  lemma OnlyContentTypeMatters(a: Upload, b: Upload)
    requires a.contentType == b.contentType
    ensures ImageTypeValidate(a) == ImageTypeValidate(b)
  {
  }

  /** The match is case-sensitive. */
  lemma UpperCaseRejected()
    ensures ImageTypeValidate(Upload("a.png", "image/PNG", [])).Err?
    ensures ImageTypeValidate(Upload("a.png", "image/png", [])).Ok?
  {
  }
}
