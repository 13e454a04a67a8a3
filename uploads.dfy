/**
 * The file-upload rules of the Flask back end (backend/app.py): the
 * extension whitelist `allowed_file`, the column an upload is recorded in,
 * and the answer `upload_file` gives before any database work.
 */
module Uploads {
  import opened Wrappers
  import Text

  /** `ALLOWED_EXTENSIONS`. */
  const AllowedExtensions: set<string> := {"png", "jpg", "jpeg", "gif", "xls", "xlsx"}

  /** The extensions recorded as images. */
  const ImageExtensions: set<string> := {"png", "jpg", "jpeg", "gif"}

  /** `filename.rsplit('.', 1)[1].lower()`: the lower-cased text after the last `'.'`. */
  function Extension(filename: string): (ext: string)
    requires '.' in filename
    ensures '.' !in ext
  {
    var raw := filename[Text.LastIndexOf(filename, '.') + 1..];
    assert forall i :: 0 <= i < |raw| ==> Text.LowerChar(raw[i]) != '.';
    Text.Lower(raw)
  }

  /** `allowed_file(filename)`. */
  predicate AllowedFile(filename: string) {
    '.' in filename && Extension(filename) in AllowedExtensions
  }

  /** The column `upload_file` records the stored name in. */
  function UploadColumn(ext: string): (column: string)
    ensures column == "image_path" || column == "excel_path"
  {
    if ext in ImageExtensions then "image_path" else "excel_path"
  }

  /** At most one position holds the last occurrence of a character. */
  lemma LastOccurrenceUnique(s: string, c: char, i: nat, j: nat)
    requires i < |s| && s[i] == c && c !in s[i + 1..]
    requires j < |s| && s[j] == c && c !in s[j + 1..]
    ensures i == j
  {
  }

  /** The extension is what follows the last dot: `stem + "." + ext` has extension `ext`, lower-cased. */
  lemma ExtensionOfName(stem: string, ext: string)
    requires '.' !in ext
    ensures '.' in stem + "." + ext
    ensures Extension(stem + "." + ext) == Text.Lower(ext)
  {
    var name := stem + "." + ext;
    assert name[|stem|] == '.';
    assert name[|stem| + 1..] == ext;
    LastOccurrenceUnique(name, '.', Text.LastIndexOf(name, '.'), |stem|);
  }

  /**
   * `allowed_file` holds exactly for a name with a dot whose lower-cased
   * suffix after the last dot is whitelisted; a name without a dot never.
   */
  lemma AllowedFileIff(stem: string, ext: string)
    requires '.' !in ext
    ensures AllowedFile(stem + "." + ext) <==> Text.Lower(ext) in AllowedExtensions
    ensures !AllowedFile(ext)
  {
    ExtensionOfName(stem, ext);
  }

  /**
   * The whitelist ignores case: any spelling of `xlsx` (`REPORT.XLSX`,
   * `a.XlSx`) is accepted and recorded as a spreadsheet.
   */
  lemma UpperCaseAccepted(stem: string, ext: string)
    requires '.' !in ext && Text.Lower(ext) == "xlsx"
    ensures AllowedFile(stem + "." + ext) && UploadColumn(Extension(stem + "." + ext)) == "excel_path"
  {
    ExtensionOfName(stem, ext);
    ColumnOfAllowed("xlsx");
  }

  /** A prefix in front of the name (`f"{id}_{name}"`) does not change the extension. */
  lemma ExtensionOfPrefixed(prefix: string, name: string)
    requires '.' in name
    ensures '.' in prefix + name
    ensures Extension(prefix + name) == Extension(name)
  {
    var s := prefix + name;
    var k := Text.LastIndexOf(name, '.');
    assert s[|prefix| + k] == '.';
    assert s[|prefix| + k + 1..] == name[k + 1..];
    LastOccurrenceUnique(s, '.', Text.LastIndexOf(s, '.'), |prefix| + k);
  }

  /** Every whitelisted extension goes to exactly one column: images to `image_path`, spreadsheets to `excel_path`. */
  lemma ColumnOfAllowed(ext: string)
    requires ext in AllowedExtensions
    ensures UploadColumn(ext) == "image_path" <==> ext in {"png", "jpg", "jpeg", "gif"}
    ensures UploadColumn(ext) == "excel_path" <==> ext in {"xls", "xlsx"}
  {
  }

  // ---------------------------------------------------------------- upload_file

  /** The multipart request: no `file` part, or a part with its file name. */
  datatype UploadRequest = NoFilePart | FilePart(filename: string)

  /** The reply of `upload_file`; `filePath` is the stored name on success. */
  datatype UploadReply = UploadReply(status: int, message: string, filePath: Option<string>)

  const NoFilePartMessage: string := "No file part"
  const NoSelectedFile: string := "No selected file"
  const TypeNotAllowed: string := "File type not allowed"
  const Uploaded: string := "File uploaded successfully"

  /** Flask's answer to an exception the handler does not catch. */
  const InternalServerError: string := "Internal Server Error"

  /**
   * `upload_file` as the module is written: `secure_filename` is called but
   * never imported, so every request that gets past the checks raises
   * `NameError` before any file or row is touched.
   */
  function UploadAsWritten(req: UploadRequest): (r: UploadReply)
    ensures r.status == 400 <==> req.NoFilePart? || !AllowedFile(req.filename)
    ensures r.status == 500 <==> req.FilePart? && AllowedFile(req.filename)
    ensures r.filePath.None?
  {
    match req
    case NoFilePart => UploadReply(400, NoFilePartMessage, None)
    case FilePart(name) =>
      if name == "" then UploadReply(400, NoSelectedFile, None)
      else if AllowedFile(name) then UploadReply(500, InternalServerError, None)
      else UploadReply(400, TypeNotAllowed, None)
  }

  /** No upload ever succeeds as written. */
  lemma NoUploadSucceeds(req: UploadRequest)
    ensures UploadAsWritten(req).status != 201
  {
  }

  /** Every name the whitelist accepts, such as `report.png`, gets a 500. */
  lemma AllowedUploadFails(stem: string, ext: string)
    requires '.' !in ext && Text.Lower(ext) in AllowedExtensions
    ensures UploadAsWritten(FilePart(stem + "." + ext)).status == 500
  {
    AllowedFileIff(stem, ext);
  }

  /**
   * The stored name and column of an accepted upload once `secure_filename`
   * is available (passed in here as `sanitize`): the sanitised
   * `"{id}_{filename}"`, and the column chosen by its extension; none when
   * the sanitised name has lost its dot (the `rsplit` then raises).
   */
  function UploadTarget(id: int, filename: string, sanitize: string -> string): (r: Option<(string, string)>)
    ensures r.Some? <==> '.' in sanitize(Text.IntToString(id) + "_" + filename)
    ensures r.Some? ==> r.value.1 == sanitize(Text.IntToString(id) + "_" + filename)
  {
    var stored := sanitize(Text.IntToString(id) + "_" + filename);
    if '.' in stored then Some((UploadColumn(Extension(stored)), stored)) else None
  }

  /** When sanitising keeps the name, an allowed upload is recorded in the column its own extension selects. */
  lemma TargetOfSafeName(id: int, filename: string, sanitize: string -> string)
    requires AllowedFile(filename)
    requires sanitize(Text.IntToString(id) + "_" + filename) == Text.IntToString(id) + "_" + filename
    ensures UploadTarget(id, filename, sanitize) ==
      Some((UploadColumn(Extension(filename)), Text.IntToString(id) + "_" + filename))
  {
    ExtensionOfPrefixed(Text.IntToString(id) + "_", filename);
    assert Text.IntToString(id) + "_" + filename == (Text.IntToString(id) + "_") + filename;
  }
}
