/** Small value types shared by the editor, the background gallery and the hooks. */
module Base {

  datatype Option<+T> = None | Some(value: T)

  /** The part of a browser `File` the handlers look at. */
  datatype FileInfo = FileInfo(name: string, mimeType: string)

  /** Both upload handlers accept a file only when its MIME type starts with "image/". */
  predicate IsImageFile(f: FileInfo): (r: bool)
    ensures r <==> |f.mimeType| >= 6 && f.mimeType[..6] == "image/"
  {
    "image/" <= f.mimeType
  }
}
