# digitalmarketplace-utils: request tracing and document handling in Dafny

This project models two parts of the Digital Marketplace utility library and
proves properties about them.

- **Request trace context** (`dmutils/request_id.py`, module `RequestId`, file
  `request_id.dfy`). Each inbound request has a trace id, a span id and a
  parent-span id. Each one comes from an ordered list of candidate header
  names: the first candidate whose header is present and non-empty wins.
  - The trace id falls back to a freshly generated UUID.
  - The span and parent-span ids are never generated.
  - Each id is cached on the request the first time it is read.
  - The request builds the headers to forward to downstream services:
    trace and span ids only, never the parent span.
  - A WSGI middleware appends the trace id to every response under each
    configured trace header name the response lacks.
  - `init_app` fills in the default candidate lists.
  - `Request` is a class whose cache fields the property reads fill in.
  - `App` is a class whose configuration and middleware stack `init_app`
    updates.
- **Documents** (`dmutils/documents.py`, module `Documents`, file
  `documents.dfy`).
  - Dropping empty uploads.
  - Validating format and size, where the format check comes first and the
    size limit is 5 400 000 bytes.
  - Recognising file kinds by their lower-cased `os.path.splitext` extension.
  - Building S3 keys, and recovering the document name from a key.
  - Sanitising supplier names for download file names.
  - Uploaded files are `FileStorage` objects with a stream position, which
    `file_is_empty` and `get_file_size` move.

Three helper modules support them:

- `Wrappers` (`wrappers.dfy`): `Option` and `Result`.
- `Strings` (`strings.dfy`): the Python string operations the code uses,
  restricted to ASCII where Python is Unicode-aware. These are `lower`,
  `replace`, `strip`, `in` on strings, and the `encode("ascii", "ignore")`
  filter.
- `PosixPath` (`posix_path.dfy`): `posixpath.splitext` and lemmas about where
  it splits.

What the code does, stated plainly where a docstring or a reader might expect
otherwise:

- The middleware does not write a single header. It appends the trace id
  under *every* configured trace header name missing from the response, and
  it never overwrites a header the application already set.
- "Missing" is decided by exact string comparison against the response's
  header names, even though inbound lookup ignores case.
- An explicitly configured empty tuple of trace header names is kept as it is.
  Such a request forwards no trace header, and the middleware adds none.
- The docstring of `filter_empty_files` (`dmutils/documents.py:28-31`) says
  it removes the empty files. The code keeps exactly the non-empty files only
  when every upload stream starts at position 0: `file_is_empty`
  (`dmutils/documents.py:139-142`) reads from the current position, so a
  stream left at its end counts as empty.

## Model

| member | source | states |
|---|---|---|
| RequestId.GetHeader | dmutils/request_id.py:35-36 | Header lookup ignores ASCII case. The result is None exactly when no inbound header has the name; otherwise it is the value of the first header that has it. |
| RequestId.FirstHeader | dmutils/request_id.py:30-38 | None exactly when no candidate is present and non-empty. Otherwise the result is non-empty. |
| RequestId.FirstHeaderIsEarliest | dmutils/request_id.py:30-38 | A value that is found belongs to the earliest candidate that qualifies; every earlier candidate fails to qualify. |
| RequestId.FirstHeaderIgnoresArrivalOrder | dmutils/request_id.py:30-38 | Two arrivals of the same distinct-named headers in different orders resolve every candidate list to the same value. |
| RequestId.SameFirstHeader | dmutils/request_id.py:30-38 | Candidate lists resolve equally on two header collections that agree on every candidate name. |
| RequestId.Request.GetFirstHeader | dmutils/request_id.py:30-38 | The loop with early return equals `FirstHeader` of the request's headers. |
| RequestId.Request.TraceId | dmutils/request_id.py:12-16 | The first read caches and returns the first qualifying trace header, or else the generated value. Later reads return the cached value. The generator is called exactly once, on the first read with no qualifying header. The result is never empty. |
| RequestId.Request.RequestId | dmutils/request_id.py:8-10 | Behaves exactly like `trace_id`, sharing its cache. |
| RequestId.Request.SpanId | dmutils/request_id.py:18-22 | Equals `FirstHeader` over the span names and is cached. It is None, never generated, when no span header qualifies. |
| RequestId.Request.ParentSpanId | dmutils/request_id.py:24-28 | Equals `FirstHeader` over the parent-span names and is cached. It is None, never generated, when no parent-span header qualifies. |
| RequestId.Request.GetOnwardsRequestHeaders | dmutils/request_id.py:40-44 | Equals `OnwardHeaders` of the trace id and the first span header. It reads (and may generate) the trace id only when there are trace names, and it keeps an already cached trace id. With trace names and nothing cached, the trace-id cache becomes the first qualifying trace header or the generated value; with span names, the span-id cache becomes the first qualifying span header. |
| RequestId.ReadRequest | dmutils/request_id.py:8-44 | After every property is read on one request, `request_id == trace_id` equals the first trace header or the generated value. The span ids are their first headers. The onward headers follow from these. The generator was called exactly when no trace header qualified. |
| RequestId.DictFromPairsAppend | dmutils/request_id.py:41-44 | `dict` of two chained runs of pairs is the first run's dict overridden by the second's. |
| RequestId.DictOfPairsFor | dmutils/request_id.py:41-44 | `dict` of `(name, value)` pairs maps exactly the listed names to the value. |
| RequestId.OnwardHeaders | dmutils/request_id.py:41-44 | `dict` of the trace pairs (when the trace id is non-empty) chained with the span pairs (when the span id is truthy); `OnwardHeadersSpec` states its keys and values. |
| RequestId.OnwardHeadersSpec | dmutils/request_id.py:40-44 | The keys are exactly the trace names (when the trace id is non-empty) and the span names (when the span id is truthy). A name in both lists carries the span id; every other key carries the trace id. |
| RequestId.OnwardHeadersOfRequest | dmutils/request_id.py:40-44 | For a resolved trace id: every trace name maps to it unless a span id overrides that name. Span names are keys only when a span id was received, or when they are also trace names. |
| RequestId.ParentSpanNeverForwarded | dmutils/request_id.py:40-44 | A parent-span header name that is neither a trace nor a span name is never an onward header. |
| RequestId.WithDefaults | dmutils/request_id.py:65-71 | After the three `setdefault` calls all three lists are set, and the lists and header settings that were present are kept unchanged. |
| RequestId.Resolve | dmutils/request_id.py:65-71 | With no trace list set, the list is (request-id header or "DM-Request-ID", downstream header or "X-B3-TraceId"). The span and parent-span lists default to ("X-B3-SpanId") and ("X-B3-ParentSpan"). |
| RequestId.WithDefaultsIdempotent | dmutils/request_id.py:65-71 | Defaulting twice gives the same configuration as defaulting once. |
| RequestId.TraceOverrideIgnoresHeaderSettings | dmutils/request_id.py:66-69 | An explicit DM_TRACE_ID_HEADERS is used verbatim, and the resolved lists do not depend on DM_REQUEST_ID_HEADER or DM_DOWNSTREAM_REQUEST_ID_HEADER. |
| RequestId.EmptyHeaderSettingIsUnset | dmutils/request_id.py:67-68 | An empty DM_REQUEST_ID_HEADER or DM_DOWNSTREAM_REQUEST_ID_HEADER resolves the same as an unset one. |
| RequestId.DefaultTraceConfig | dmutils/request_id.py:65-71 | With nothing configured the lists are ("DM-Request-ID", "X-B3-TraceId"), ("X-B3-SpanId") and ("X-B3-ParentSpan"). |
| RequestId.MissingHeaders | dmutils/request_id.py:54-58 | The pairs built are exactly `(name, id)` for the trace names absent from the response; the list is empty exactly when none is absent. |
| RequestId.RewriteResponseHeaders | dmutils/request_id.py:53-60 | The original headers come first, unchanged and in order. Every appended pair is (a trace name not already present, the request id). Every such name is appended, and afterwards every trace name is present. |
| RequestId.ResponseCarriesTraceId | dmutils/request_id.py:53-60 | Looking a trace header up on the rewritten response gives the request id when the application set no header of that name. |
| RequestId.ResponseHeaderMiddleware | dmutils/request_id.py:52-62 | Passes on the application's status, or Flask's 500 status after an exception, with the rewritten headers. When no trace header is missing, the trace-id cache and the generator are untouched. When one is missing, the request id is read: an empty cache becomes the first qualifying trace header or the generated value, and a filled cache is kept. The request's invariant is kept. |
| RequestId.TraceIdOnEveryResponse | dmutils/request_id.py:52-62 | On a normal response and on the 500 error page alike, each trace name the response lacks answers with the trace id. |
| RequestId.InitApp | dmutils/request_id.py:65-76 | The configuration becomes its defaulted form. The request class gains the mixin. One middleware layer is added, carrying the resolved trace list. |
| Documents.FileIsEmpty | dmutils/documents.py:139-142 | Empty exactly when the stream has no byte left at its current position; the stream ends at position 0. |
| Documents.FileIsNotEmpty | dmutils/documents.py:135-136 | Non-empty exactly when a byte is left at the current position; the stream ends at position 0. |
| Documents.GetFileSize | dmutils/s3.py:162-167 | The size is the length of the content; the stream ends at position 0. |
| Documents.FileIsLessThan5mb | dmutils/documents.py:145-146 | True exactly when the content is shorter than 5 400 000 bytes. |
| Documents.FilterEmptyFiles | dmutils/documents.py:27-37 | The result is a sub-map with unchanged values, and every kept file is non-empty. Every file with a byte left at its position is kept, and every stream is rewound. With all streams rewound beforehand, the result is exactly the non-empty files. |
| Documents.GetExtension | dmutils/documents.py:209-211 | The result is an extension: empty, or a dot followed by text with no dot or slash. |
| Documents.GetExtensionIs | dmutils/documents.py:209-211 | A name has lower-case extension `ext` exactly when it ends in `ext` up to case and a non-dot character of its last component precedes that ending. |
| Documents.FileIsCsvIff | dmutils/documents.py:162-166 | `file_is_csv` holds exactly when the name ends in ".csv" in any case, after a non-dot character of its last component. |
| Documents.FileIsOpenDocumentFormat | dmutils/documents.py:149-152 | Holds exactly when the lower-cased extension is one of ".pdf", ".pda", ".odt", ".ods" and ".odp"; `FileKinds` and `GetExtensionIs` relate it to the file name. |
| Documents.FileIsPdf | dmutils/documents.py:155-159 | Holds exactly when the lower-cased extension is ".pdf" or ".pda"; `FileKinds` shows every PDF is an open-document file. |
| Documents.FileIsCsv | dmutils/documents.py:162-166 | Holds exactly when the lower-cased extension is ".csv"; `FileIsCsvIff` states it on the file name. |
| Documents.FileIsZip | dmutils/documents.py:169-173 | Holds exactly when the lower-cased extension is ".zip"; `FileKinds` shows it excludes the other kinds. |
| Documents.FileIsImage | dmutils/documents.py:176-180 | Holds exactly when the lower-cased extension is ".jpg", ".jpeg" or ".png"; `FileKinds` shows it excludes the other kinds. |
| Documents.FileKinds | dmutils/documents.py:149-180 | Every PDF passes the open-document check. A file is at most one of pdf, csv, zip and image, and an open-document file is none of csv, zip and image. |
| Documents.ValidationErrorsSpec | dmutils/documents.py:40-60 | Error keys are input keys, and the format check takes precedence over the size check. The result is empty exactly when every file is an open-document file under the limit. |
| Documents.ValidateDocument | dmutils/documents.py:54-58 | One loop step reports the format error for a non-open-document file, the size error for an open-document file of at least 5 400 000 bytes, and nothing otherwise. Only files that pass the format check have their size taken, which rewinds them; other streams are untouched. |
| Documents.ValidateField | dmutils/documents.py:54-58 | One turn of the loop adds the field's error, if any, to the errors found so far. The field's stream is rewound exactly when it passes the format check. |
| Documents.ValidateDocuments | dmutils/documents.py:40-60 | The errors equal `ValidationErrors(files)`. Open-document streams end at 0 and the others keep their positions. |
| Documents.GenerateFileName | dmutils/documents.py:183-202 | Fails with `KeyError(field)` exactly when the field is not one of the four upload fields. |
| Documents.GenerateFileNameSpec | dmutils/documents.py:183-202 | A generated key lies under `slug/type/supplier/` and has the same lower-cased extension as the uploaded file, when the service id and suffix hold no dot or slash. |
| Documents.GetAgreementDocumentPath | dmutils/documents.py:225-230 | Equals `get_document_path` in the "agreements" category. |
| Documents.GetDocumentPath | dmutils/documents.py:233-239 | The key `slug/category/supplier/supplier-name`; `DegenerateInvertsGetDocumentPath` is its inverse. |
| Documents.GenerateTimestampedDocumentUploadPath | dmutils/documents.py:242-248 | The document path of the name with the timestamp inserted before the extension; `TimestampKeepsExtension` and `DegenerateTimestampedPath` state what it keeps. |
| Documents.MatchAt | dmutils/documents.py:258 | A match of `/\d+-` at an index ends after that index and holds no "/" after its first character. |
| Documents.LastPieceStart | dmutils/documents.py:258 | The start of the last piece lies between the current piece's start and the end of the text. |
| Documents.NoSlashUntilEnd | dmutils/documents.py:258 | With no "/" left to scan, the current piece is the last one. |
| Documents.DegenerateDocumentPathAndReturnDocName | dmutils/documents.py:251-258 | The result is a suffix of the path. |
| Documents.DegenerateInvertsGetDocumentPath | dmutils/documents.py:233-258 | For a non-empty numeric supplier id and a document name without "/", the name is recovered from `get_document_path`. |
| Documents.ScanReachesMatch | dmutils/documents.py:258 | While scanning for `/\d+-`, no earlier match can run past a later match's `/`, so the scan reaches the match. |
| Documents.TimestampKeepsExtension | dmutils/documents.py:242-248 | The timestamp goes between stem and extension: splitting the new name gives `root + "-" + timestamp` and the original extension. |
| Documents.DegenerateTimestampedPath | dmutils/documents.py:242-258 | The name recovered from a timestamped upload path is the timestamped document name. |
| Documents.CollapseUnderscores | dmutils/documents.py:267-268 | The collapse loop terminates and leaves no "__". |
| Documents.SanitisedSupplierNameIsSafe | dmutils/documents.py:261-269 | The sanitised name is ASCII and contains no space, no "&", none of the 23 bad characters and no "__". |
| Documents.SanitiseSupplierName | dmutils/documents.py:261-269 | The loops compute the sanitised name, and it is safe in the sense above. |
| Documents.SanitisedSupplierName | dmutils/documents.py:261-269 | ASCII filter, strip, space and ampersand replacement, bad-character removal and underscore collapse, in that order; `SanitisedSupplierNameIsSafe` states what the result avoids. |
| Documents.GenerateDownloadFilename | dmutils/documents.py:272-277 | The sanitised supplier name, "-", the supplier id, "-" and the document name; `DownloadFilenameSpec` states its shape. |
| Documents.DownloadFilenameSpec | dmutils/documents.py:272-277 | A download name is a safe supplier name followed verbatim by "-", the supplier id, "-" and the document name. |
| Strings.AsciiOnly | dmutils/documents.py:263 | The result is ASCII, keeps only characters of the input, and leaves ASCII input unchanged. |
| Strings.AsciiOnlyKeepsAscii | dmutils/documents.py:263 | The filter distributes over concatenation, and a single character is kept exactly when it is ASCII; so every ASCII character is kept, in order, and every other one is dropped. |
| Strings.Strip | dmutils/documents.py:263 | The result has no leading or trailing whitespace and keeps only characters of the input. |
| Strings.StripTrims | dmutils/documents.py:263 | The result is a contiguous slice of the input, and everything cut off before and after it is whitespace. |
| Strings.ReplaceRemovesChar | dmutils/documents.py:264-266 | Replacing a character by text without it removes every occurrence. |
| Strings.RemoveCharsSpec | dmutils/documents.py:265-266 | After the removal loop, no bad character is left and no new character appears. |
| Strings.CollapseStepShrinks | dmutils/documents.py:267-268 | One `replace("__", "_")` never lengthens the name, and it shortens the name whenever "__" occurs. |
| PosixPath.SplitExt | dmutils/documents.py:210 | Root and extension concatenate to the path, and the extension is empty or a dot followed by text with no dot or slash. |
| PosixPath.SplitExtIs | dmutils/documents.py:210 | The extension is a given non-empty `t` exactly when the path ends in `t` after a non-dot character of the last component. |
| PosixPath.SplitExtNonEmptyIff | dmutils/documents.py:210 | The extension is non-empty exactly when the last component has a dot after a non-dot character. |

## Left out

- `upload_document`, `upload_service_documents` and `get_signed_url` are left out. They only pass data to an S3 uploader, to `section.get_question_ids` and to `urlparse`, none of which is part of this model.
- `dmutils/s3.py` is not modelled beyond `FILE_SIZE_LIMIT` and `get_file_size`. `dmutils/email/dm_mailchimp.py` is not part of this model.
- The unused name constants of `documents.py` (result letter, agreement and signature-page file names) are left out.
- Clock reads are left out. `default_file_suffix` and the `utcnow()` timestamp become the `suffix` and `timestamp` parameters.
- `uuid.uuid4` is left out. The value it would return is the `generated` parameter, required to be non-empty; uniqueness is not modelled.
- Flask and WSGI plumbing is left out. `current_app` lookup, `request_class` subclassing, `exc_info` and the `start_response` callback are out. The configuration is a record, and an unhandled exception is `HandlerOutcome.Raised`, which Flask answers with its 500 page.
- The WSGI environment folds `-` and `_` in header names; that folding is not modelled. Inbound headers are a sequence of pairs with ASCII-case-insensitive, first-match lookup.
- RequestId.GetHeader: header-name matching, and the lower-casing in `get_extension`, cover ASCII case only, while Python's `str.lower` is Unicode-aware.
- Documents.MatchAt: `\d` matches ASCII digits only, while Python's `re` also accepts other Unicode digits.
- RequestId.Request.GetOnwardsRequestHeaders: the result is a map, so the insertion order of Python's dict is not kept.
- Documents.ValidateDocuments: `files` is a map, and its keys are visited in an unspecified order. The errors do not depend on that order; only the order of a Python dict's keys is lost.
- Documents.FilterEmptyFiles: the result equals the non-empty files only when every stream starts at position 0, because `file_is_empty` reads from where the stream stands.
- Strings.Strip: whitespace is Python's `isspace` within ASCII. This is exact here, because non-ASCII characters are removed first.
