/** The rule the item and quotation forms apply to a picked image file. */
module Images {

  /** A picked file as the forms see it: its MIME type and its size in bytes. */
  datatype ImageFile = ImageFile(mimeType: string, size: nat)

  const ValidTypes: seq<string> := ["image/jpeg", "image/jpg", "image/png", "image/gif", "image/webp"]

  /** Five mebibytes. */
  const MaxImageBytes: nat := 5 * 1024 * 1024

  datatype ImageVerdict = Accepted | BadType | TooLarge

  const BadTypeMessage := "Please select a valid image file (JPEG, PNG, GIF, WebP)."
  const TooLargeMessage := "Image size should be less than 5MB."

  /** The type is checked first, then the size. */
  function CheckImage(file: ImageFile): (v: ImageVerdict)
    ensures v == Accepted <==> file.mimeType in ValidTypes && file.size <= 5242880
    ensures v == BadType <==> file.mimeType !in ValidTypes
  {
    if file.mimeType !in ValidTypes then BadType
    else if file.size > MaxImageBytes then TooLarge
    else Accepted
  }

  function VerdictMessage(v: ImageVerdict): string
    requires v != Accepted
  {
    if v == BadType then BadTypeMessage else TooLargeMessage
  }
}
