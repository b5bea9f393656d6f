/** The image field of the kit form: the checks a chosen file must pass, the error it
    shows, and how choosing or removing a file changes the form's `image_url`. */
module ImageUpload {
  import opened Wrappers

  /** A chosen file: its MIME type and its size in bytes. */
  datatype File = File(mimeType: string, size: nat)

  const MaxFileSize: nat := 10 * 1024 * 1024
  const AllowedTypes: seq<string> := ["image/jpeg", "image/png", "image/webp", "image/gif"]

  datatype Rejection = WrongType | TooLarge

  function Message(r: Rejection): string {
    match r
    case WrongType => "Only image files (PNG, JPG, WebP, GIF) are allowed"
    case TooLarge => "File size must be less than 10MB"
  }

  /** Why a file is refused, if it is: the type is checked before the size. */
  function Check(f: File): Option<Rejection> {
    if f.mimeType !in AllowedTypes then Some(WrongType)
    else if f.size > MaxFileSize then Some(TooLarge)
    else None
  }

  /** A file is accepted exactly when its type is one of the four image types and it
      has at most 10 MiB; a file failing both checks is refused for its type. */
  lemma CheckSpec(f: File)
    ensures Check(f).None? <==> f.mimeType in AllowedTypes && f.size <= MaxFileSize
    ensures Check(f) == Some(WrongType) <==> f.mimeType !in AllowedTypes
    ensures Check(f) == Some(TooLarge) <==> f.mimeType in AllowedTypes && f.size > MaxFileSize
  {
  }

  /** The size limit is inclusive: exactly 10 MiB passes, one byte more does not. */
  lemma SizeLimitExamples()
    ensures Check(File("image/png", 10485760)).None?
    ensures Check(File("image/png", 10485761)) == Some(TooLarge)
    ensures Check(File("image/svg+xml", 10485761)) == Some(WrongType)
  {
  }

  class UploadField {
    /** The error shown under the field. */
    var error: Option<string>
    /** The form's `image_url`: a data URL of a chosen file, or a stored URL. */
    var imageUrl: Option<string>
    /** The value of the hidden file input. */
    var fileInput: string

    constructor(initialUrl: Option<string>)
      ensures error == None && imageUrl == initialUrl && fileInput == ""
    {
      error := None;
      imageUrl := initialUrl;
      fileInput := "";
    }

    /** `validateFile`: sets or clears the error and tells whether the file may be read. */
    method ValidateFile(f: File) returns (ok: bool)
      modifies this
      ensures ok <==> Check(f).None?
      ensures error == if ok then None else Some(Message(Check(f).value))
      ensures imageUrl == old(imageUrl) && fileInput == old(fileInput)
    {
      if f.mimeType !in AllowedTypes {
        error := Some(Message(WrongType));
        return false;
      }
      if f.size > MaxFileSize {
        error := Some(Message(TooLarge));
        return false;
      }
      error := None;
      return true;
    }

    /** `handleFileSelect`: an accepted file becomes the form's image once it has been
        read. `dataUrl` is what reading it yields; `None` when the read never completes.
        A refused file leaves the image as it was. */
    method HandleFileSelect(f: File, dataUrl: Option<string>)
      modifies this
      ensures Check(f).Some? ==> imageUrl == old(imageUrl) && error == Some(Message(Check(f).value))
      ensures Check(f).None? ==> error == None && imageUrl == (if dataUrl.Some? then dataUrl else old(imageUrl))
      ensures fileInput == old(fileInput)
    {
      var ok := ValidateFile(f);
      if !ok {
        return;
      }
      if dataUrl.Some? {
        imageUrl := dataUrl;
      }
    }

    /** `handleRemove`: the image is cleared and so is the file input; the error stays. */
    method HandleRemove()
      modifies this
      ensures imageUrl == None && fileInput == "" && error == old(error)
    {
      imageUrl := None;
      fileInput := "";
    }
  }
}
