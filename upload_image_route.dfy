/** The image upload endpoint: checks the `image` form field (present, an
    accepted image type, at most 10 MiB), derives a stored file name from the
    original extension, stores the bytes in the shared image store and
    answers with a link built from the base URL. */
module UploadImageRoute {
  import opened Json
  import opened Strings
  import opened ImageStore
  import opened ShareRoute

  /** The largest accepted file: 10 MiB. */
  const MaxImageSize: int := 10 * 1024 * 1024

  const MissingFileError := "请上传图片文件"
  const UnsupportedTypeError := "不支持的图片格式，请上传 JPEG、PNG、HEIC 或 HEIF 格式的图片"
  const TooLargeError := "图片文件过大，请上传小于10MB的图片"
  const UploadFailedError := "图片上传失败"

  datatype UploadedFile = UploadedFile(name: string, mimeType: string, bytes: seq<Byte>)

  /** A multipart form field: a file, or plain text (which has no `type`
      and no `size`). */
  datatype FormEntry = FileEntry(file: UploadedFile) | TextEntry(text: string)

  /** `await request.formData()` throws on a body that is not a form. */
  datatype FormData = UnparseableForm | Form(image: Option<FormEntry>)

  /** `!file` is false: a file, or non-empty text. */
  predicate EntryTruthy(entry: Option<FormEntry>) {
    entry.Some? && (entry.value.FileEntry? || entry.value.text != [])
  }

  predicate AllowedType(mimeType: string) {
    mimeType in ["image/jpeg", "image/png", "image/heic", "image/heif"]
  }

  /** `allowedTypes.includes(file.type)`; a text field's `type` is
      `undefined`, which is never included. */
  predicate EntryTypeAllowed(entry: FormEntry) {
    entry.FileEntry? && AllowedType(entry.file.mimeType)
  }

  /** The last piece of `name.split('.')`: everything after the last dot,
      or the whole name when it has none. */
  function AfterLastDot(name: string): string {
    var parts := Split(name, ".");
    parts[|parts| - 1]
  }

  /** `name.split('.').pop() || 'jpg'`. */
  function Extension(name: string): string {
    var last := AfterLastDot(name);
    if last == [] then "jpg" else last
  }

  datatype Uploaded = Uploaded(imageId: string, imageUrl: string, fileName: string, size: nat, mimeType: string)

  /** The checks in the order the handler makes them; `None` means the file
      is accepted. */
  function Rejection(form: FormData): Option<Reply<Uploaded>> {
    if form.UnparseableForm? then Some(Failure(500, UploadFailedError))
    else if !EntryTruthy(form.image) then Some(Failure(400, MissingFileError))
    else if !EntryTypeAllowed(form.image.value) then Some(Failure(400, UnsupportedTypeError))
    else if |form.image.value.file.bytes| > MaxImageSize then Some(Failure(400, TooLargeError))
    else None
  }

  /** POST: a rejected request stores nothing; an accepted one stores the
      file's bytes, type and original name under the new `imageId` (stamped
      with `now`) and answers with the id, its link and the derived file
      name. */
  method Post(images: ImageStorage, form: FormData, imageId: string, now: int, ctx: UrlContext)
    returns (reply: Reply<Uploaded>)
    modifies images
    ensures Rejection(form).Some? ==> reply == Rejection(form).value && images.storage == old(images.storage)
    ensures Rejection(form).None? ==>
      var f := form.image.value.file;
      images.storage == old(images.storage)[imageId := StoredImage(f.bytes, f.mimeType, f.name, now)] &&
      reply == Success(Uploaded(imageId, BaseUrl(ctx) + "/api/images/" + imageId,
                                imageId + "." + Extension(f.name), |f.bytes|, f.mimeType))
  {
    if form.UnparseableForm? {
      return Failure(500, UploadFailedError);
    }
    var entry := form.image;
    if !EntryTruthy(entry) {
      return Failure(400, MissingFileError);
    }
    if !EntryTypeAllowed(entry.value) {
      return Failure(400, UnsupportedTypeError);
    }
    var file := entry.value.file;
    if |file.bytes| > MaxImageSize {
      return Failure(400, TooLargeError);
    }
    var extension := Extension(file.name);
    var fileName := imageId + "." + extension;
    images.Store(imageId, file.bytes, file.mimeType, file.name, now);
    var imageUrl := BaseUrl(ctx) + "/api/images/" + imageId;
    reply := Success(Uploaded(imageId, imageUrl, fileName, |file.bytes|, file.mimeType));
  }

  /** The checks come in a fixed order: a missing file is reported before
      its type, and a wrong type before the size; a file of exactly 10 MiB
      passes. */
  lemma RejectionOrder(name: string, mimeType: string, bytes: seq<Byte>)
    ensures Rejection(Form(None)) == Some(Failure(400, MissingFileError))
    ensures Rejection(Form(Some(TextEntry("")))) == Some(Failure(400, MissingFileError))
    ensures !AllowedType(mimeType) ==>
      Rejection(Form(Some(FileEntry(UploadedFile(name, mimeType, bytes))))) == Some(Failure(400, UnsupportedTypeError))
    ensures AllowedType(mimeType) ==>
      (Rejection(Form(Some(FileEntry(UploadedFile(name, mimeType, bytes))))).None? <==> |bytes| <= 10 * 1024 * 1024)
  {
  }

  lemma NoDotMeansNoOccurrence(s: string, c: char)
    requires c !in s
    ensures FindFrom(s, [c], 0) == -1
  {
    forall j | 0 <= j < |s| ensures !OccursAt(s, [c], j) {
      assert s[j..j + 1] == [s[j]];
    }
  }

  lemma DotMeansOccurrence(s: string, c: char)
    requires c in s
    ensures FindFrom(s, [c], 0) >= 0
  {
    var i :| 0 <= i < |s| && s[i] == c;
    assert s[i..i + 1] == [c];
    assert OccursAt(s, [c], i);
  }

  /** `AfterLastDot` is the text after the last dot: a dot-free suffix of
      the name that is preceded by a dot when the name has one, and is the
      whole name when it has none. */
  lemma AfterLastDotIsTextAfterLastDot(name: string)
    ensures var r := AfterLastDot(name);
      '.' !in r && |r| <= |name| && r == name[|name| - |r|..] &&
      ('.' in name ==> |r| < |name| && name[|name| - |r| - 1] == '.') &&
      ('.' !in name ==> r == name)
  {
    var parts := Split(name, ".");
    SplitPiecesAvoidSeparator(name, '.');
    assert parts[|parts| - 1] in parts;
    SplitLastPiece(name, ".");
    if '.' in name {
      DotBeforeLastPiece(name);
    } else {
      NoDotMeansNoOccurrence(name, '.');
      assert Split(name, ".") == SplitAt(name, ".", -1) == [name];
    }
  }

  /** In a name with a dot, a dot comes right before the last piece. */
  lemma DotBeforeLastPiece(name: string)
    requires '.' in name
    ensures var r := AfterLastDot(name); |r| < |name| && name[|name| - |r| - 1] == '.'
  {
    DotMeansOccurrence(name, '.');
    SplitUnfold(name, ".");
    SplitLastPieceAfterSeparator(name, ".");
    var r := AfterLastDot(name);
    assert name[|name| - |r| - 1..|name| - |r|] == ".";
  }

  /** The extension after the id's dot is never empty and never contains a
      dot; it is `jpg` when the name ends in a dot or is empty, and the name
      itself when the name has no dot. */
  lemma ExtensionShape(name: string)
    ensures var ext := Extension(name);
      ext != [] && '.' !in ext &&
      (AfterLastDot(name) == [] ==> ext == "jpg") &&
      (AfterLastDot(name) != [] ==> ext == AfterLastDot(name)) &&
      ('.' !in name && name != [] ==> ext == name)
  {
    AfterLastDotIsTextAfterLastDot(name);
  }
}
