/** The two request validators of `ImageProcessor` (`app/utils/image_processor.py`). */
module ImageProcessor {
  import opened Config

  /** `validate_image_type`: exact, case-sensitive membership in the allowed MIME types. */
  predicate ValidateImageType(contentType: string) {
    contentType in AllowedImageTypes
  }

  /** Exactly the three configured types pass. */
  lemma ValidateImageTypeExact(contentType: string)
    ensures ValidateImageType(contentType) <==>
              contentType == "image/jpeg" || contentType == "image/png" || contentType == "image/jpg"
  {
  }

  /** An image type the code does not list, and a listed one in another case, are refused. */
  lemma ValidateImageTypeRejects()
    ensures !ValidateImageType("image/gif") && !ValidateImageType("IMAGE/JPEG") && !ValidateImageType("image/jpeg ")
  {
    assert "image/gif"[6] == 'g';
    assert "IMAGE/JPEG"[0] == 'I';
    assert |"image/jpeg "| == 11;
  }

  /** `validate_image_size`: at most `MAX_IMAGE_SIZE` bytes. */
  predicate ValidateImageSize(data: seq<bv8>) {
    |data| <= MaxImageSize
  }

  /** The limit is inclusive: 10 MiB exactly passes, one byte more does not. */
  lemma ValidateImageSizeBoundary(data: seq<bv8>)
    ensures |data| == 10485760 ==> ValidateImageSize(data)
    ensures |data| == 10485761 ==> !ValidateImageSize(data)
  {
  }

  /** Accepted data stays accepted when shortened. */
  lemma ValidateImageSizeMonotone(data: seq<bv8>, shorter: seq<bv8>)
    requires ValidateImageSize(data) && |shorter| <= |data|
    ensures ValidateImageSize(shorter)
  {
  }
}
