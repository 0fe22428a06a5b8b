/**
 * Document handling of dmutils/documents.py: dropping empty uploads,
 * validating format and size, recognising file kinds by extension, building
 * S3 keys and download names, and recovering a document name from its key.
 */
module Documents {
  import opened Wrappers
  import opened Strings
  import opened PosixPath

  /** Uploads of this many bytes or more are refused (dmutils/s3.py). */
  const FILE_SIZE_LIMIT: nat := 5400000

  const BAD_SUPPLIER_NAME_CHARACTERS: seq<char> := [
    '#', '%', '&', '{', '}', '\\', '<', '>', '*', '?', '/', '$',
    '!', '\'', '"', ':', '@', '+', '`', '|', '=', ',', '.']

  // ---------------------------------------------------------------------------
  // Uploaded files

  /** An uploaded file: its client-side name, its bytes and the stream position. */
  class FileStorage {
    const filename: string
    const content: seq<bv8>
    var position: nat

    constructor (filename: string, content: seq<bv8>)
      ensures this.filename == filename && this.content == content && position == 0
    {
      this.filename := filename;
      this.content := content;
      position := 0;
    }

    /** `read(n)`: up to `n` bytes from the current position, which moves past them. */
    method Read(n: nat) returns (chunk: seq<bv8>)
      modifies this`position
      ensures old(position) >= |content| ==> chunk == [] && position == old(position)
      ensures old(position) < |content| ==>
        var stop := if old(position) + n < |content| then old(position) + n else |content|;
        chunk == content[old(position)..stop] && position == stop
    {
      if position >= |content| {
        chunk := [];
      } else {
        var stop := if position + n < |content| then position + n else |content|;
        chunk := content[position..stop];
        position := stop;
      }
    }

    /** `seek(offset)` from the start, or with `fromEnd` (`whence=2`) from the end. */
    method Seek(offset: nat, fromEnd: bool)
      modifies this`position
      ensures position == if fromEnd then |content| + offset else offset
    {
      position := if fromEnd then |content| + offset else offset;
    }

    method Tell() returns (p: nat)
      ensures p == position
    {
      p := position;
    }
  }

  /** `file_is_empty`: read one byte, rewind, report whether nothing came back. */
  method FileIsEmpty(f: FileStorage) returns (empty: bool)
    modifies f`position
    ensures empty <==> old(f.position) >= |f.content|
    ensures f.position == 0
  {
    var chunk := f.Read(1);
    empty := |chunk| == 0;
    f.Seek(0, false);
  }

  method FileIsNotEmpty(f: FileStorage) returns (nonEmpty: bool)
    modifies f`position
    ensures nonEmpty <==> old(f.position) < |f.content|
    ensures f.position == 0
  {
    var empty := FileIsEmpty(f);
    nonEmpty := !empty;
  }

  /** `get_file_size` (dmutils/s3.py): seek to the end, tell, rewind. */
  method GetFileSize(f: FileStorage) returns (size: nat)
    modifies f`position
    ensures size == |f.content|
    ensures f.position == 0
  {
    f.Seek(0, true);
    size := f.Tell();
    f.Seek(0, false);
  }

  method FileIsLessThan5mb(f: FileStorage) returns (small: bool)
    modifies f`position
    ensures small <==> |f.content| < FILE_SIZE_LIMIT
    ensures f.position == 0
  {
    var size := GetFileSize(f);
    small := size < FILE_SIZE_LIMIT;
  }

  /** The files of `files` whose content is not empty. */
  function NonEmptyFiles(files: map<string, FileStorage>): map<string, FileStorage> {
    map k | k in files && |files[k].content| > 0 :: files[k]
  }

  /**
   * `filter_empty_files`. Each check reads from where that file's stream
   * stands and rewinds it, so a file whose stream was already at its end is
   * dropped like an empty one; with every stream rewound beforehand, the
   * result is exactly the non-empty files.
   */
  method FilterEmptyFiles(files: map<string, FileStorage>) returns (nonEmpty: map<string, FileStorage>)
    modifies files.Values
    ensures nonEmpty.Keys <= files.Keys
    ensures forall k :: k in nonEmpty ==> nonEmpty[k] == files[k] && |files[k].content| > 0
    ensures forall k :: k in files && old(files[k].position) < |files[k].content| ==> k in nonEmpty
    ensures forall k :: k in files ==> files[k].position == 0
    ensures (forall k :: k in files ==> old(files[k].position) == 0) ==> nonEmpty == NonEmptyFiles(files)
  {
    nonEmpty := map[];
    var todo := files.Keys;
    while todo != {}
      invariant todo <= files.Keys
      invariant nonEmpty.Keys <= files.Keys - todo
      invariant forall k :: k in nonEmpty ==> nonEmpty[k] == files[k] && |files[k].content| > 0
      invariant forall k :: k in files.Keys - todo && old(files[k].position) < |files[k].content| ==> k in nonEmpty
      invariant forall k :: k in files.Keys - todo ==> files[k].position == 0
      invariant forall k :: k in todo ==> files[k].position == old(files[k].position) || files[k].position == 0
      decreases todo
    {
      var key :| key in todo;
      var keep := FileIsNotEmpty(files[key]);
      if keep {
        nonEmpty := nonEmpty[key := files[key]];
      }
      todo := todo - {key};
    }
    if forall k :: k in files ==> old(files[k].position) == 0 {
      assert nonEmpty.Keys == NonEmptyFiles(files).Keys;
    }
  }

  // ---------------------------------------------------------------------------
  // Extensions and file kinds

  /** `get_extension`: the `splitext` extension, lower-cased. */
  function GetExtension(filename: string): (e: string)
    ensures IsExtension(e)
  {
    var ext := SplitExt(filename).1;
    LowerKeepsExtension(ext);
    Lower(ext)
  }

  lemma LowerKeepsExtension(e: string)
    requires IsExtension(e)
    ensures IsExtension(Lower(e))
  {
    if e != [] {
      assert forall j :: 0 <= j < |e| - 1 ==> e[1..][j] == e[j + 1] && Lower(e)[1..][j] == LowerChar(e[j + 1]);
    }
  }

  /**
   * A file name has extension `ext` (a dot and plain lower-case text) exactly
   * when it ends in `ext` up to case and its last component has a character
   * other than a dot before that ending.
   */
  lemma GetExtensionIs(filename: string, ext: string)
    requires |ext| > 0 && ext[0] == '.' && Plain(ext[1..]) && Lower(ext) == ext
    ensures GetExtension(filename) == ext <==>
      && |ext| <= |filename|
      && Lower(filename[|filename| - |ext|..]) == ext
      && HasStem(filename, RFind(filename, '/'), |filename| - |ext|)
  {
    if GetExtension(filename) == ext {
      GetExtensionIsSuffix(filename, ext);
    }
    if && |ext| <= |filename|
       && Lower(filename[|filename| - |ext|..]) == ext
       && HasStem(filename, RFind(filename, '/'), |filename| - |ext|) {
      SuffixIsGetExtension(filename, ext);
    }
  }

  lemma GetExtensionIsSuffix(filename: string, ext: string)
    requires |ext| > 0 && GetExtension(filename) == ext
    ensures |ext| <= |filename| && Lower(filename[|filename| - |ext|..]) == ext
    ensures HasStem(filename, RFind(filename, '/'), |filename| - |ext|)
  {
    var t := SplitExt(filename).1;
    assert Lower(t) == ext;
    SplitExtIsStem(filename);
  }

  lemma SuffixIsGetExtension(filename: string, ext: string)
    requires |ext| > 0 && ext[0] == '.' && Plain(ext[1..]) && Lower(ext) == ext
    requires |ext| <= |filename| && Lower(filename[|filename| - |ext|..]) == ext
    requires HasStem(filename, RFind(filename, '/'), |filename| - |ext|)
    ensures GetExtension(filename) == ext
  {
    var t := filename[|filename| - |ext|..];
    LowerReflectsExtension(t);
    EndingIsExtension(filename, |filename| - |ext|);
  }

  lemma EndingIsExtension(p: string, d: nat)
    requires d < |p| && IsExtension(p[d..])
    requires HasStem(p, RFind(p, '/'), d)
    ensures GetExtension(p) == Lower(p[d..])
  {
    StemIsSplitExt(p, p[d..]);
  }

  /** Lower-casing neither makes nor hides a `.` or a `/`. */
  lemma LowerReflectsExtension(t: string)
    requires IsExtension(Lower(t))
    ensures IsExtension(t)
  {
    if t != [] {
      assert LowerChar(t[0]) == '.';
      forall j | 0 <= j < |t| - 1 ensures t[1..][j] != '.' && t[1..][j] != '/' {
        assert Lower(t)[1..][j] == LowerChar(t[j + 1]);
      }
    }
  }

  const OPEN_DOCUMENT_EXTENSIONS := [".pdf", ".pda", ".odt", ".ods", ".odp"]
  const PDF_EXTENSIONS := [".pdf", ".pda"]
  const CSV_EXTENSIONS := [".csv"]
  const ZIP_EXTENSIONS := [".zip"]
  const IMAGE_EXTENSIONS := [".jpg", ".jpeg", ".png"]

  predicate FileIsOpenDocumentFormat(f: FileStorage) {
    GetExtension(f.filename) in OPEN_DOCUMENT_EXTENSIONS
  }

  predicate FileIsPdf(f: FileStorage) {
    GetExtension(f.filename) in PDF_EXTENSIONS
  }

  predicate FileIsCsv(f: FileStorage) {
    GetExtension(f.filename) in CSV_EXTENSIONS
  }

  predicate FileIsZip(f: FileStorage) {
    GetExtension(f.filename) in ZIP_EXTENSIONS
  }

  predicate FileIsImage(f: FileStorage) {
    GetExtension(f.filename) in IMAGE_EXTENSIONS
  }

  /** Every PDF passes the open-document check; a file is of at most one kind. */
  lemma FileKinds(f: FileStorage)
    ensures FileIsPdf(f) ==> FileIsOpenDocumentFormat(f)
    ensures !(FileIsPdf(f) && FileIsCsv(f)) && !(FileIsPdf(f) && FileIsZip(f)) && !(FileIsPdf(f) && FileIsImage(f))
    ensures !(FileIsCsv(f) && FileIsZip(f)) && !(FileIsCsv(f) && FileIsImage(f)) && !(FileIsZip(f) && FileIsImage(f))
    ensures FileIsOpenDocumentFormat(f) ==> !FileIsCsv(f) && !FileIsZip(f) && !FileIsImage(f)
  {
  }

  /** `file_is_csv` holds exactly for names ending in `.csv` in any case after a non-dot character of their last component. */
  lemma FileIsCsvIff(f: FileStorage)
    ensures FileIsCsv(f) <==>
      && |f.filename| >= 4
      && Lower(f.filename[|f.filename| - 4..]) == ".csv"
      && exists k :: RFind(f.filename, '/') < k < |f.filename| - 4 && f.filename[k] != '.'
  {
    assert Plain(".csv"[1..]);
    GetExtensionIs(f.filename, ".csv");
  }

  // ---------------------------------------------------------------------------
  // Validation

  /** The validator name recorded for one file, or None when it passes. */
  function DocumentError(f: FileStorage): (r: Option<string>)
    ensures r == Some("file_is_open_document_format") <==> !FileIsOpenDocumentFormat(f)
    ensures r == Some("file_is_less_than_5mb") <==>
      FileIsOpenDocumentFormat(f) && |f.content| >= FILE_SIZE_LIMIT
    ensures r.None? <==> FileIsOpenDocumentFormat(f) && |f.content| < FILE_SIZE_LIMIT
  {
    if !FileIsOpenDocumentFormat(f) then Some("file_is_open_document_format")
    else if |f.content| >= FILE_SIZE_LIMIT then Some("file_is_less_than_5mb")
    else None
  }

  /** The errors `validate_documents` reports for the fields `keys` of `files`. */
  function ErrorsOn(files: map<string, FileStorage>, keys: set<string>): map<string, string>
    requires keys <= files.Keys
  {
    map k | k in keys && DocumentError(files[k]).Some? :: DocumentError(files[k]).value
  }

  /** The errors `validate_documents` reports for `files`. */
  function ValidationErrors(files: map<string, FileStorage>): map<string, string> {
    ErrorsOn(files, files.Keys)
  }

  lemma ErrorsOnInsert(files: map<string, FileStorage>, keys: set<string>, k: string)
    requires keys <= files.Keys && k in files
    ensures DocumentError(files[k]).None? ==> ErrorsOn(files, keys + {k}) == ErrorsOn(files, keys)
    ensures DocumentError(files[k]).Some? ==>
      ErrorsOn(files, keys + {k}) == ErrorsOn(files, keys)[k := DocumentError(files[k]).value]
  {
  }

  /**
   * Errors are keyed by fields of the input; the format check comes before
   * the size check; no errors means every file is an open-document file under
   * the size limit.
   */
  lemma ValidationErrorsSpec(files: map<string, FileStorage>)
    ensures ValidationErrors(files).Keys <= files.Keys
    ensures forall k :: k in files && !FileIsOpenDocumentFormat(files[k]) ==>
      ValidationErrors(files)[k] == "file_is_open_document_format"
    ensures forall k :: k in files && FileIsOpenDocumentFormat(files[k]) ==>
      (k in ValidationErrors(files) <==> |files[k].content| >= FILE_SIZE_LIMIT)
    ensures forall k :: k in ValidationErrors(files) && FileIsOpenDocumentFormat(files[k]) ==>
      ValidationErrors(files)[k] == "file_is_less_than_5mb"
    ensures ValidationErrors(files) == map[] <==>
      forall k :: k in files ==> FileIsOpenDocumentFormat(files[k]) && |files[k].content| < FILE_SIZE_LIMIT
  {
    if ValidationErrors(files) == map[] {
      forall k | k in files ensures FileIsOpenDocumentFormat(files[k]) && |files[k].content| < FILE_SIZE_LIMIT {
        assert k !in ValidationErrors(files);
      }
    }
  }

  /**
   * The body of `validate_documents`' loop for one file. Only a file that
   * passes the format check has its size taken, which rewinds its stream.
   */
  method ValidateDocument(contents: FileStorage) returns (error: Option<string>)
    modifies contents`position
    ensures error == DocumentError(contents)
    ensures FileIsOpenDocumentFormat(contents) ==> contents.position == 0
    ensures !FileIsOpenDocumentFormat(contents) ==> contents.position == old(contents.position)
  {
    if !FileIsOpenDocumentFormat(contents) {
      error := Some("file_is_open_document_format");
    } else {
      var small := FileIsLessThan5mb(contents);
      error := if small then None else Some("file_is_less_than_5mb");
    }
  }

  /** One turn of `validate_documents`' loop: validate `field` and record its error, if any. */
  method ValidateField(files: map<string, FileStorage>, ghost done: set<string>, field: string,
                       errors: map<string, string>) returns (errors': map<string, string>)
    requires done <= files.Keys && field in files
    requires errors == ErrorsOn(files, done)
    modifies files[field]
    ensures errors' == ErrorsOn(files, done + {field})
    ensures FileIsOpenDocumentFormat(files[field]) ==> files[field].position == 0
    ensures !FileIsOpenDocumentFormat(files[field]) ==> files[field].position == old(files[field].position)
  {
    ErrorsOnInsert(files, done, field);
    var error := ValidateDocument(files[field]);
    errors' := if error.Some? then errors[field := error.value] else errors;
  }

  /** `validate_documents`: the validator that failed, per field. */
  method ValidateDocuments(files: map<string, FileStorage>) returns (errors: map<string, string>)
    modifies files.Values
    ensures errors == ValidationErrors(files)
    ensures forall k :: k in files && FileIsOpenDocumentFormat(files[k]) ==> files[k].position == 0
    ensures forall k :: k in files && !FileIsOpenDocumentFormat(files[k]) ==>
      files[k].position == old(files[k].position)
  {
    errors := map[];
    var todo := files.Keys;
    ghost var done: set<string> := {};
    ghost var odf := set k | k in files && FileIsOpenDocumentFormat(files[k]);
    while todo != {}
      invariant done !! todo && done + todo == files.Keys
      invariant errors == ErrorsOn(files, done)
      invariant forall k :: k in done && k in odf ==> files[k].position == 0
      invariant forall k :: k in files && k !in odf ==> files[k].position == old(files[k].position)
      decreases todo
    {
      var field :| field in todo;
      errors := ValidateField(files, done, field, errors);
      todo := todo - {field};
      done := done + {field};
    }
  }

  // ---------------------------------------------------------------------------
  // S3 keys

  const ID_TO_FILE_NAME_SUFFIX: map<string, string> := map[
    "serviceDefinitionDocumentURL" := "service-definition-document",
    "termsAndConditionsDocumentURL" := "terms-and-conditions",
    "sfiaRateDocumentURL" := "sfia-rate-card",
    "pricingDocumentURL" := "pricing-document"]

  /** The `KeyError` a dictionary lookup raises. */
  datatype KeyError = KeyError(key: string)

  /**
   * `generate_file_name` with the suffix given (its default is the upload
   * time, `%Y-%m-%d-%H%M`). Ids are their decimal renderings.
   */
  function GenerateFileName(frameworkSlug: string, uploadType: string, supplierId: string, serviceId: string,
                            field: string, filename: string, suffix: string): (r: Result<string, KeyError>)
    ensures r.Err? <==> field !in ID_TO_FILE_NAME_SUFFIX
    ensures r.Err? ==> r.error == KeyError(field)
  {
    if field !in ID_TO_FILE_NAME_SUFFIX then Err(KeyError(field))
    else Ok(frameworkSlug + "/" + uploadType + "/" + supplierId + "/" + serviceId + "-" +
            ID_TO_FILE_NAME_SUFFIX[field] + "-" + suffix + GetExtension(filename))
  }

  /**
   * A generated key lies under `slug/type/supplier/` and keeps the upload's
   * (lower-cased) extension, provided the service id and suffix hold no `.`
   * or `/`, as ids and timestamps do not.
   */
  lemma GenerateFileNameSpec(frameworkSlug: string, uploadType: string, supplierId: string, serviceId: string,
                             field: string, filename: string, suffix: string)
    requires field in ID_TO_FILE_NAME_SUFFIX
    requires Plain(serviceId) && Plain(suffix)
    ensures var r := GenerateFileName(frameworkSlug, uploadType, supplierId, serviceId, field, filename, suffix);
      var dir := frameworkSlug + "/" + uploadType + "/" + supplierId + "/";
      && r.Ok?
      && |dir| <= |r.value| && r.value[..|dir|] == dir
      && GetExtension(r.value) == GetExtension(filename)
  {
    var mapped := ID_TO_FILE_NAME_SUFFIX[field];
    FileNameSuffixesArePlain(field);
    PlainFileStem(serviceId, mapped, suffix);
    var top := frameworkSlug + "/" + uploadType + "/" + supplierId;
    var last := serviceId + "-" + mapped + "-" + suffix;
    KeyRegroup(top + "/", serviceId, mapped, suffix, GetExtension(filename));
    KeyShape(top, last, filename);
  }

  /** Regrouping the concatenation that builds a key: the service part is one component. */
  lemma KeyRegroup(dir: string, serviceId: string, mapped: string, suffix: string, ext: string)
    ensures dir + serviceId + "-" + mapped + "-" + suffix + ext == dir + (serviceId + "-" + mapped + "-" + suffix) + ext
  {
  }

  lemma PlainFileStem(serviceId: string, mapped: string, suffix: string)
    requires Plain(serviceId) && Plain(mapped) && Plain("-") && Plain(suffix)
    ensures Plain(serviceId + "-" + mapped + "-" + suffix)
  {
    PlainConcat(serviceId, "-");
    PlainConcat(serviceId + "-", mapped);
    PlainConcat(serviceId + "-" + mapped, "-");
    PlainConcat(serviceId + "-" + mapped + "-", suffix);
  }

  lemma FileNameSuffixesArePlain(field: string)
    requires field in ID_TO_FILE_NAME_SUFFIX
    ensures Plain(ID_TO_FILE_NAME_SUFFIX[field]) && Plain("-")
  {
    var mapped := ID_TO_FILE_NAME_SUFFIX[field];
    if field == "serviceDefinitionDocumentURL" {
      assert mapped == "service-definition-document";
    } else if field == "termsAndConditionsDocumentURL" {
      assert mapped == "terms-and-conditions";
    } else if field == "sfiaRateDocumentURL" {
      assert mapped == "sfia-rate-card";
    } else {
      assert mapped == "pricing-document";
    }
  }

  /** A key `top/last<ext>` with a plain `last` lies under `top/` and has the extension `ext`. */
  lemma KeyShape(top: string, last: string, filename: string)
    requires |last| > 0 && Plain(last)
    ensures var key := top + "/" + last + GetExtension(filename);
      && |top + "/"| <= |key| && key[..|top + "/"|] == top + "/"
      && GetExtension(key) == GetExtension(filename)
  {
    var e := GetExtension(filename);
    assert GetExtension(top + "/" + last + e) == e by {
      ExtensionAfterPlainComponent(top, last, e);
      LowerIdempotent(SplitExt(filename).1);
    }
    PrefixOfConcat(top + "/", last, e);
  }

  lemma PrefixOfConcat(a: string, b: string, c: string)
    ensures |a| <= |a + b + c| && (a + b + c)[..|a|] == a
  {
    assert a + b + c == a + (b + c);
  }

  /** `get_document_path`: `slug/category/supplier/supplier-name`. */
  function GetDocumentPath(frameworkSlug: string, supplierId: string, bucketCategory: string,
                           documentName: string): string
  {
    frameworkSlug + "/" + bucketCategory + "/" + supplierId + "/" + supplierId + "-" + documentName
  }

  /** `get_agreement_document_path`: the document path in the `agreements` category. */
  function GetAgreementDocumentPath(frameworkSlug: string, supplierId: string, documentName: string): (r: string)
    ensures r == GetDocumentPath(frameworkSlug, supplierId, "agreements", documentName)
  {
    frameworkSlug + "/agreements/" + supplierId + "/" + supplierId + "-" + documentName
  }

  /** The document name with `-timestamp` inserted before its extension. */
  function TimestampedDocName(docName: string, timestamp: string): string {
    var (root, ext) := SplitExt(docName);
    root + "-" + timestamp + ext
  }

  /**
   * `generate_timestamped_document_upload_path` with the timestamp given (the
   * source formats the current UTC time as `%Y-%m-%d-%H%M%S`).
   */
  function GenerateTimestampedDocumentUploadPath(frameworkSlug: string, supplierId: string,
                                                 bucketCategory: string, docName: string,
                                                 timestamp: string): string
  {
    GetDocumentPath(frameworkSlug, supplierId, bucketCategory, TimestampedDocName(docName, timestamp))
  }

  /**
   * The timestamp goes between the stem and the extension: splitting the new
   * name gives the old stem with the timestamp, and the old extension.
   */
  lemma TimestampKeepsExtension(docName: string, timestamp: string)
    requires Plain(timestamp)
    ensures SplitExt(TimestampedDocName(docName, timestamp)) ==
      (SplitExt(docName).0 + "-" + timestamp, SplitExt(docName).1)
  {
    var (root, ext) := SplitExt(docName);
    var b := "-" + timestamp;
    assert Plain(b) by {
      forall i | 0 <= i < |b| ensures b[i] != '.' && b[i] != '/' {
        if i > 0 { assert b[i] == timestamp[i - 1]; }
      }
    }
    assert root + b == root + "-" + timestamp;
    assert TimestampedDocName(docName, timestamp) == root + b + ext;
    if ext == [] {
      assert root == docName;
      NoExtensionAfterPlainText(root, b);
      assert root + b + ext == root + b;
    } else {
      ExtensionAfterPlainText(root, b, ext);
    }
  }

  // ---------------------------------------------------------------------------
  // Recovering the document name: re.split('/\d+-', path)[-1]

  /** The end of the run of digits starting at `j`. */
  function DigitRunEnd(s: string, j: nat): (k: nat)
    requires j <= |s|
    ensures j <= k <= |s|
    ensures forall m :: j <= m < k ==> IsDigit(s[m])
    ensures k == |s| || !IsDigit(s[k])
    decreases |s| - j
  {
    if j < |s| && IsDigit(s[j]) then DigitRunEnd(s, j + 1) else j
  }

  /**
   * The pattern `/\d+-` matched at index `i`, giving the index just past the
   * match. `\d+` is greedy and backtracking cannot help, since a shorter run
   * of digits is followed by a digit, not by `-`.
   */
  function MatchAt(s: string, i: nat): (r: Option<nat>)
    requires i < |s|
    ensures r.Some? ==> i < r.value <= |s| && forall k :: i < k < r.value ==> s[k] != '/'
  {
    if s[i] != '/' then None
    else
      var k := DigitRunEnd(s, i + 1);
      if k > i + 1 && k < |s| && s[k] == '-' then Some(k + 1) else None
  }

  /**
   * Where the last piece of `re.split` starts: scanning from `i`, each match
   * found ends the current piece and starts the next one at its end; `start`
   * is where the current piece began.
   */
  function LastPieceStart(s: string, i: nat, start: nat): (k: nat)
    requires start <= i <= |s|
    ensures start <= k <= |s|
    decreases |s| - i
  {
    if i == |s| then start
    else
      match MatchAt(s, i)
      case Some(e) => LastPieceStart(s, e, e)
      case None => LastPieceStart(s, i + 1, start)
  }

  /** `degenerate_document_path_and_return_doc_name`: the text after the last `/<digits>-`. */
  function DegenerateDocumentPathAndReturnDocName(documentPath: string): (r: string)
    ensures |r| <= |documentPath| && r == documentPath[|documentPath| - |r|..]
  {
    documentPath[LastPieceStart(documentPath, 0, 0)..]
  }

  lemma {:induction false} NoSlashUntilEnd(s: string, i: nat, start: nat)
    requires start <= i <= |s|
    requires forall k :: i <= k < |s| ==> s[k] != '/'
    ensures LastPieceStart(s, i, start) == start
    decreases |s| - i
  {
    if i < |s| {
      NoSlashUntilEnd(s, i + 1, start);
    }
  }

  /** Matches before a `/` at `m` end at or before `m`, so the scan reaches the match at `m`. */
  lemma {:induction false} ScanReachesMatch(s: string, i: nat, start: nat, m: nat)
    requires start <= i <= m < |s|
    requires MatchAt(s, m).Some?
    ensures LastPieceStart(s, i, start) == LastPieceStart(s, MatchAt(s, m).value, MatchAt(s, m).value)
    decreases m - i
  {
    var r := MatchAt(s, i);
    if i < m {
      if r.Some? {
        var e := r.value;
        assert s[m] == '/';
        assert e <= m;
        ScanReachesMatch(s, e, e, m);
      } else {
        ScanReachesMatch(s, i + 1, start, m);
      }
    }
  }

  predicate IsDigits(s: string) {
    forall i :: 0 <= i < |s| ==> IsDigit(s[i])
  }

  /**
   * The documented inverse: for a numeric supplier id and a document name
   * without `/`, the name is recovered from its path.
   */
  lemma DegenerateInvertsGetDocumentPath(frameworkSlug: string, supplierId: string, bucketCategory: string,
                                         documentName: string)
    requires |supplierId| > 0 && IsDigits(supplierId)
    requires '/' !in documentName
    ensures DegenerateDocumentPathAndReturnDocName(
      GetDocumentPath(frameworkSlug, supplierId, bucketCategory, documentName)) == documentName
  {
    var prefix := frameworkSlug + "/" + bucketCategory + "/" + supplierId;
    TailRegroup(prefix, supplierId, documentName);
    DegenerateAfterPrefix(prefix, supplierId, documentName);
  }

  /** Regrouping the concatenation that builds a document path: the last component is one piece. */
  lemma TailRegroup(prefix: string, supplierId: string, documentName: string)
    ensures prefix + "/" + supplierId + "-" + documentName == prefix + ("/" + supplierId + "-" + documentName)
  {
  }

  /** Whatever precedes it, a final `/<digits>-name` with no `/` in the name gives back the name. */
  lemma DegenerateAfterPrefix(prefix: string, supplierId: string, documentName: string)
    requires |supplierId| > 0 && IsDigits(supplierId)
    requires '/' !in documentName
    ensures DegenerateDocumentPathAndReturnDocName(prefix + ("/" + supplierId + "-" + documentName)) == documentName
  {
    var p := prefix + ("/" + supplierId + "-" + documentName);
    var m := |prefix|;
    var n := |supplierId|;
    var e := m + n + 2;
    assert p[m] == '/';
    assert forall j :: 0 <= j < n ==> p[m + 1 + j] == supplierId[j];
    assert p[m + 1 + n] == '-';
    var k := DigitRunEnd(p, m + 1);
    assert k == m + 1 + n;
    assert MatchAt(p, m) == Some(e);
    ScanReachesMatch(p, 0, 0, m);
    var head := "/" + supplierId + "-";
    assert p == (prefix + head) + documentName;
    forall j | e <= j < |p| ensures p[j] != '/' {
      assert p[j] == documentName[j - e];
    }
    NoSlashUntilEnd(p, e, e);
  }

  /** The timestamped upload path gives back the timestamped document name. */
  lemma DegenerateTimestampedPath(frameworkSlug: string, supplierId: string, bucketCategory: string,
                                  docName: string, timestamp: string)
    requires |supplierId| > 0 && IsDigits(supplierId)
    requires '/' !in docName && Plain(timestamp)
    ensures DegenerateDocumentPathAndReturnDocName(
      GenerateTimestampedDocumentUploadPath(frameworkSlug, supplierId, bucketCategory, docName, timestamp))
      == TimestampedDocName(docName, timestamp)
  {
    var (root, ext) := SplitExt(docName);
    var name := TimestampedDocName(docName, timestamp);
    assert name == root + "-" + timestamp + ext;
    assert '/' !in name by {
      assert forall c :: c in root ==> c in docName by {
        forall c | c in root ensures c in docName {
          var i :| 0 <= i < |root| && root[i] == c;
          assert docName[i] == c;
        }
      }
      assert forall c :: c in ext ==> c in docName by {
        forall c | c in ext ensures c in docName {
          var i :| 0 <= i < |ext| && ext[i] == c;
          assert docName[|root| + i] == c;
        }
      }
      assert forall c :: c in timestamp ==> c != '/';
    }
    DegenerateInvertsGetDocumentPath(frameworkSlug, supplierId, bucketCategory, name);
  }

  // ---------------------------------------------------------------------------
  // Supplier names in download file names

  /** `while '__' in s: s = s.replace('__', '_')`. */
  function CollapseUnderscores(s: string): (r: string)
    ensures !Contains(r, "__")
    decreases |s|
  {
    if Contains(s, "__") then
      CollapseStepShrinks(s);
      CollapseUnderscores(Replace(s, "__", "_"))
    else s
  }

  lemma {:induction false} CollapseCharsFrom(s: string)
    ensures forall c :: c in CollapseUnderscores(s) ==> c in s
    decreases |s|
  {
    if Contains(s, "__") {
      CollapseStepShrinks(s);
      var i :| 0 <= i <= |s| - |"__"| && OccursAt(s, "__", i);
      assert s[i..i + 2] == "__" && s[i] == '_';
      ReplaceCharsFrom(s, "__", "_");
      CollapseCharsFrom(Replace(s, "__", "_"));
    }
  }

  /** `sanitise_supplier_name` as one expression. */
  function SanitisedSupplierName(supplierName: string): string {
    var stripped := Strip(AsciiOnly(supplierName));
    var replaced := Replace(Replace(stripped, " ", "_"), "&", "and");
    CollapseUnderscores(RemoveChars(replaced, BAD_SUPPLIER_NAME_CHARACTERS))
  }

  /** ASCII only, no space, no `&`, none of the bad characters and no `__`. */
  predicate SafeSupplierName(s: string) {
    && IsAscii(s)
    && ' ' !in s && '&' !in s
    && (forall c :: c in BAD_SUPPLIER_NAME_CHARACTERS ==> c !in s)
    && !Contains(s, "__")
  }

  /** Replacing spaces and ampersands leaves only the other characters, `_` and those of `and`. */
  lemma ReplacedChars(stripped: string)
    ensures forall c :: c in Replace(Replace(stripped, " ", "_"), "&", "and") ==>
      (c in stripped && c != ' ' && c != '&') || c == '_' || c in "and"
  {
    var spaced := Replace(stripped, " ", "_");
    ReplaceCharsFrom(stripped, " ", "_");
    ReplaceRemovesChar(stripped, ' ', "_");
    ReplaceCharsFrom(spaced, "&", "and");
    ReplaceRemovesChar(spaced, '&', "and");
  }

  /** Removing the bad characters and collapsing `__` keeps a subset of the characters and no bad one. */
  lemma RemovedChars(replaced: string)
    ensures forall c :: c in CollapseUnderscores(RemoveChars(replaced, BAD_SUPPLIER_NAME_CHARACTERS)) ==>
      c in replaced && c !in BAD_SUPPLIER_NAME_CHARACTERS
  {
    RemoveCharsSpec(replaced, BAD_SUPPLIER_NAME_CHARACTERS);
    CollapseCharsFrom(RemoveChars(replaced, BAD_SUPPLIER_NAME_CHARACTERS));
  }

  lemma SanitisedSupplierNameIsSafe(supplierName: string)
    ensures SafeSupplierName(SanitisedSupplierName(supplierName))
  {
    var ascii := AsciiOnly(supplierName);
    var stripped := Strip(ascii);
    var replaced := Replace(Replace(stripped, " ", "_"), "&", "and");
    var r := CollapseUnderscores(RemoveChars(replaced, BAD_SUPPLIER_NAME_CHARACTERS));
    ReplacedChars(stripped);
    RemovedChars(replaced);
    forall i | 0 <= i < |r| ensures IsAsciiChar(r[i]) && r[i] != ' ' {
      assert r[i] in r;
      if r[i] in stripped {
        var j :| 0 <= j < |ascii| && ascii[j] == r[i];
      }
    }
  }

  /** `sanitise_supplier_name`, with its loop over the bad characters and its collapse loop. */
  method SanitiseSupplierName(supplierName: string) returns (sanitised: string)
    ensures sanitised == SanitisedSupplierName(supplierName)
    ensures SafeSupplierName(sanitised)
  {
    sanitised := Strip(AsciiOnly(supplierName));
    sanitised := Replace(Replace(sanitised, " ", "_"), "&", "and");
    ghost var replaced := sanitised;
    for i := 0 to |BAD_SUPPLIER_NAME_CHARACTERS|
      invariant sanitised == RemoveChars(replaced, BAD_SUPPLIER_NAME_CHARACTERS[..i])
    {
      assert BAD_SUPPLIER_NAME_CHARACTERS[..i + 1][..i] == BAD_SUPPLIER_NAME_CHARACTERS[..i];
      sanitised := Replace(sanitised, [BAD_SUPPLIER_NAME_CHARACTERS[i]], "");
    }
    assert BAD_SUPPLIER_NAME_CHARACTERS[..|BAD_SUPPLIER_NAME_CHARACTERS|] == BAD_SUPPLIER_NAME_CHARACTERS;
    ghost var removed := sanitised;
    while Contains(sanitised, "__")
      invariant CollapseUnderscores(sanitised) == CollapseUnderscores(removed)
      decreases |sanitised|
    {
      CollapseStepShrinks(sanitised);
      sanitised := Replace(sanitised, "__", "_");
    }
    SanitisedSupplierNameIsSafe(supplierName);
  }

  /** `generate_download_filename`: `<sanitised supplier name>-<supplier id>-<document name>`. */
  function GenerateDownloadFilename(supplierId: string, documentName: string, supplierName: string): string {
    SanitisedSupplierName(supplierName) + "-" + supplierId + "-" + documentName
  }

  /**
   * A download name starts with a safe rendering of the supplier's name; the
   * supplier id and document name follow it verbatim.
   */
  lemma DownloadFilenameSpec(supplierId: string, documentName: string, supplierName: string)
    ensures var r := GenerateDownloadFilename(supplierId, documentName, supplierName);
      exists n :: 0 <= n <= |r| && SafeSupplierName(r[..n]) && r[n..] == "-" + supplierId + "-" + documentName
  {
    SanitisedSupplierNameIsSafe(supplierName);
    assert GenerateDownloadFilename(supplierId, documentName, supplierName) ==
      SanitisedSupplierName(supplierName) + "-" + supplierId + "-" + documentName;
    SafePrefix(SanitisedSupplierName(supplierName), supplierId, documentName);
  }

  lemma SafePrefix(s: string, supplierId: string, documentName: string)
    requires SafeSupplierName(s)
    ensures var r := s + "-" + supplierId + "-" + documentName;
      exists n :: 0 <= n <= |r| && SafeSupplierName(r[..n]) && r[n..] == "-" + supplierId + "-" + documentName
  {
    var r := s + "-" + supplierId + "-" + documentName;
    assert r == s + ("-" + supplierId + "-" + documentName);
    assert r[..|s|] == s;
  }
}
