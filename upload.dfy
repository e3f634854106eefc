/**
 * The guard of `POST /api/upload` (app/api/upload/route.ts): a file must be present, have an
 * `image/` content type and be at most 5 MiB before it is handed to blob storage.
 */
module Upload {
  import opened Wrappers
  import opened Text

  /** The parts of the uploaded `File` the route looks at. */
  datatype FileInfo = FileInfo(name: string, mimeType: string, size: nat)

  /** `5 * 1024 * 1024` bytes. */
  const MaxImageBytes: nat := 5 * 1024 * 1024

  const NoFileError := "No file provided"
  const NotImageError := "File must be an image"
  const TooLargeError := "File size must be less than 5MB"
  const ImagePrefix := "image/"

  /** The guard's verdict: 400 with a message, or the file to store. */
  datatype UploadCheck = Rejected(error: string) | Accepted(file: FileInfo)

  /**
   * The three checks in the route's order: presence, then type, then size. A file is accepted
   * exactly when all three pass, and each rejection names the first check that failed.
   */
  function CheckUpload(file: Option<FileInfo>): (r: UploadCheck)
    ensures r.Accepted? <==>
              file.Some? && StartsWith(file.value.mimeType, ImagePrefix) && file.value.size <= MaxImageBytes
    ensures r.Accepted? ==> r.file == file.value
    ensures r == Rejected(NoFileError) <==> file.None?
    ensures r == Rejected(NotImageError) <==> file.Some? && !StartsWith(file.value.mimeType, ImagePrefix)
    ensures r == Rejected(TooLargeError) <==>
              file.Some? && StartsWith(file.value.mimeType, ImagePrefix) && file.value.size > MaxImageBytes
  {
    match file
    case None => Rejected(NoFileError)
    case Some(f) =>
      if !StartsWith(f.mimeType, ImagePrefix) then Rejected(NotImageError)
      else if f.size > MaxImageBytes then Rejected(TooLargeError)
      else Accepted(f)
  }

  /**
   * The size check is `>`: an image of exactly 5 MiB passes although the message says "less
   * than 5MB"; one byte more is refused.
   */
  lemma SizeBoundary(name: string, mimeType: string)
    requires StartsWith(mimeType, ImagePrefix)
    ensures CheckUpload(Some(FileInfo(name, mimeType, MaxImageBytes))).Accepted?
    ensures CheckUpload(Some(FileInfo(name, mimeType, MaxImageBytes + 1))) == Rejected(TooLargeError)
  {
  }

  /** The type check comes first: a file too large and not an image is reported as not an image. */
  lemma TypeCheckedBeforeSize(f: FileInfo)
    requires !StartsWith(f.mimeType, ImagePrefix) && f.size > MaxImageBytes
    ensures CheckUpload(Some(f)) == Rejected(NotImageError)
  {
  }
}
